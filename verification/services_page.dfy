/** The public services page (src/app/servicos/page.tsx): each card shows one
    of the service's images (the cover, then the additional ones), and a timer
    tick advances the hovered card's image; each description collapses to its
    first 100 characters unless expanded. */
module ServicesPage {
  import opened Common
  import Cyclic

  datatype Service = Service(id: string, name: string, description: string, coverImage: string, additionalImages: seq<string>)

  const CollapsedLength: nat := 100

  /** `[service.coverImage, ...service.additionalImages]`. */
  function Images(s: Service): (r: seq<string>)
    ensures |r| >= 1 && r[0] == s.coverImage && r[1..] == s.additionalImages
  {
    [s.coverImage] + s.additionalImages
  }

  /** `map[key] || 0` for a map of numbers. */
  function IndexOr0(m: map<string, nat>, key: string): nat
  {
    if key in m then m[key] else 0
  }

  /** Whether the tick moves this card: it is hovered and has two images or more. */
  predicate Advances(s: Service, hovered: Option<string>)
  {
    |Images(s)| > 1 && hovered == Some(s.id)
  }

  /** The last card the tick moves; with repeated ids, the last write wins. */
  function LastAdvancing(services: seq<Service>, hovered: Option<string>): (r: Option<nat>)
    ensures r.Some? ==> r.value < |services| && Advances(services[r.value], hovered)
    ensures r.Some? ==> forall j :: r.value < j < |services| ==> !Advances(services[j], hovered)
    ensures r.None? ==> forall j :: 0 <= j < |services| ==> !Advances(services[j], hovered)
  {
    if services == [] then None
    else if Advances(services[|services| - 1], hovered) then Some(|services| - 1)
    else LastAdvancing(services[..|services| - 1], hovered)
  }

  /** What one tick does to the index map: the last advancing card's entry
      becomes `((prev[id] || 0) + 1) % images`, and nothing else changes. */
  predicate TickResult(services: seq<Service>, hovered: Option<string>, prev: map<string, nat>, updated: map<string, nat>)
  {
    && (LastAdvancing(services, hovered).None? ==> updated == prev)
    && (LastAdvancing(services, hovered).Some? ==>
          var s := services[LastAdvancing(services, hovered).value];
          updated == prev[s.id := (IndexOr0(prev, s.id) + 1) % |Images(s)|])
  }

  /** The interval's state updater: copy the index map, then for each service
      in turn write `(prev[id] || 0) + 1` modulo its image count when it advances. */
  method Tick(services: seq<Service>, hovered: Option<string>, prev: map<string, nat>)
    returns (updated: map<string, nat>)
    ensures TickResult(services, hovered, prev, updated)
  {
    updated := prev;
    for i := 0 to |services|
      invariant LastAdvancing(services[..i], hovered).None? ==> updated == prev
      invariant LastAdvancing(services[..i], hovered).Some? ==>
        var s := services[LastAdvancing(services[..i], hovered).value];
        updated == prev[s.id := (IndexOr0(prev, s.id) + 1) % |Images(s)|]
    {
      assert services[..i + 1][..i] == services[..i];
      var service := services[i];
      var images := [service.coverImage] + service.additionalImages;
      if |images| > 1 && hovered == Some(service.id) {
        updated := prev[service.id := (IndexOr0(prev, service.id) + 1) % |images|];
      }
    }
    assert services[..|services|] == services;
  }

  /** After a tick only the hovered id's entry may differ, and when the hovered
      card advances its new index points at one of its images. */
  lemma TickFacts(services: seq<Service>, hovered: Option<string>, prev: map<string, nat>, updated: map<string, nat>)
    requires TickResult(services, hovered, prev, updated)
    ensures forall k :: Some(k) != hovered ==> (k in updated <==> k in prev) && (k in prev ==> updated[k] == prev[k])
    ensures LastAdvancing(services, hovered).Some? ==>
      var s := services[LastAdvancing(services, hovered).value];
      s.id in updated && updated[s.id] < |Images(s)|
  {
  }

  /** For the card a tick advances, from an in-range index, the new index is
      the gallery's cyclic "next" over the card's images, and as many of those
      steps as the card has images bring it back to where it started. */
  lemma CarouselCycles(services: seq<Service>, hovered: Option<string>, prev: map<string, nat>, updated: map<string, nat>)
    requires TickResult(services, hovered, prev, updated)
    requires LastAdvancing(services, hovered).Some?
    ensures var s := services[LastAdvancing(services, hovered).value];
      var start := IndexOr0(prev, s.id);
      var n := |Images(s)|;
      start < n ==>
        && s.id in updated
        && Cyclic.Int(updated[s.id]) == Cyclic.Next(Cyclic.Int(start), n)
        && Cyclic.NextTimes(Cyclic.Int(start), n, n) == Cyclic.Int(start)
  {
    var s := services[LastAdvancing(services, hovered).value];
    var start := IndexOr0(prev, s.id);
    var n := |Images(s)|;
    if start < n {
      Cyclic.FullCycle(start, n);
      Cyclic.NextTimesIsShift(start, n, 1);
    }
  }

  /** `toggleDescription(id)`: `{ ...prev, [id]: !prev[id] }`, a missing entry
      counting as false. */
  function ToggleDescription(expanded: map<string, bool>, id: string): (r: map<string, bool>)
    ensures id in r && r[id] == !(id in expanded && expanded[id])
    ensures forall k :: k != id ==> (k in r <==> k in expanded) && (k in expanded ==> r[k] == expanded[k])
  {
    expanded[id := !(id in expanded && expanded[id])]
  }

  /** Two toggles give the entry back its truth value. */
  lemma ToggleTwice(expanded: map<string, bool>, id: string)
    ensures var twice := ToggleDescription(ToggleDescription(expanded, id), id);
      twice[id] == (id in expanded && expanded[id])
  {
  }

  /** The paragraph under the card: the whole description when expanded,
      otherwise its first 100 characters followed by "..." (added even to a
      short description). */
  function DescriptionText(description: string, expanded: map<string, bool>, id: string): (r: string)
    ensures id in expanded && expanded[id] ==> r == description
    ensures !(id in expanded && expanded[id]) ==>
      |r| == Min(|description|, CollapsedLength) + 3
      && r[..|r| - 3] == description[..Min(|description|, CollapsedLength)]
      && r[|r| - 3..] == "..."
  {
    if id in expanded && expanded[id] then description
    else Slice(description, 0, CollapsedLength) + "..."
  }

  class Page {
    var services: seq<Service>
    var expandedDescriptions: map<string, bool>
    var currentImageIndex: map<string, nat>
    var hoveredServiceId: Option<string>

    constructor ()
      ensures services == [] && expandedDescriptions == map[] && currentImageIndex == map[]
      ensures hoveredServiceId == None
    {
      services := [];
      expandedDescriptions := map[];
      currentImageIndex := map[];
      hoveredServiceId := None;
    }

    /** The mount effect: a successful fetch replaces the list; a failure is only logged. */
    method Load(response: Option<seq<Service>>)
      modifies this
      ensures services == (if response.Some? then response.value else old(services))
      ensures expandedDescriptions == old(expandedDescriptions)
      ensures currentImageIndex == old(currentImageIndex) && hoveredServiceId == old(hoveredServiceId)
    {
      if response.Some? {
        services := response.value;
      }
    }

    method MouseEnter(id: string)
      modifies this
      ensures hoveredServiceId == Some(id)
      ensures services == old(services) && expandedDescriptions == old(expandedDescriptions)
      ensures currentImageIndex == old(currentImageIndex)
    {
      hoveredServiceId := Some(id);
    }

    method MouseLeave()
      modifies this
      ensures hoveredServiceId == None
      ensures services == old(services) && expandedDescriptions == old(expandedDescriptions)
      ensures currentImageIndex == old(currentImageIndex)
    {
      hoveredServiceId := None;
    }

    /** One firing of the interval. */
    method OnInterval()
      modifies this
      ensures forall k :: Some(k) != hoveredServiceId ==>
        (k in currentImageIndex <==> k in old(currentImageIndex))
        && (k in old(currentImageIndex) ==> currentImageIndex[k] == old(currentImageIndex)[k])
      ensures LastAdvancing(services, hoveredServiceId).None? ==> currentImageIndex == old(currentImageIndex)
      ensures LastAdvancing(services, hoveredServiceId).Some? ==>
        var s := services[LastAdvancing(services, hoveredServiceId).value];
        currentImageIndex == old(currentImageIndex)[s.id := (IndexOr0(old(currentImageIndex), s.id) + 1) % |Images(s)|]
      ensures services == old(services) && expandedDescriptions == old(expandedDescriptions)
      ensures hoveredServiceId == old(hoveredServiceId)
    {
      var updated := Tick(services, hoveredServiceId, currentImageIndex);
      TickFacts(services, hoveredServiceId, currentImageIndex, updated);
      currentImageIndex := updated;
    }

    method Toggle(id: string)
      modifies this
      ensures expandedDescriptions == ToggleDescription(old(expandedDescriptions), id)
      ensures services == old(services) && currentImageIndex == old(currentImageIndex)
      ensures hoveredServiceId == old(hoveredServiceId)
    {
      expandedDescriptions := ToggleDescription(expandedDescriptions, id);
    }
  }
}
