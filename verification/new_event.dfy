/** The admin "new event" form (src/app/admin/eventos/novo/page.tsx): name,
    category, place, description with an emoji palette, and images that arrive
    one by one. Saving posts the event with the place appended to its
    description. The server's answers are parameters. */
module NewEvent {
  import opened Common

  datatype Category = Category(id: string, name: string)
  datatype EventDraft = EventDraft(name: string, category: string, description: string, local: string, images: seq<string>)

  const EmptyEvent: EventDraft := EventDraft("", "", "", "", [])
  const LocalSeparator: string := "\n📍 Local: "
  const Dashboard: string := "/admin/dashboard"
  const CategoriesFailed: string := "Não foi possível carregar as categorias."
  const MissingFields: string := "Preencha todos os campos e adicione pelo menos uma imagem."
  const Saved: string := "Evento salvo com sucesso!"
  const SaveFailed: string := "Erro ao salvar evento."

  /** The check before saving; the place may be empty. */
  predicate CanSave(event: EventDraft)
  {
    event.name != "" && event.category != "" && event.description != "" && event.images != []
  }

  /** `${description}\n📍 Local: ${local}`. */
  function FullDescription(description: string, local: string): (r: string)
    ensures |r| == |description| + |LocalSeparator| + |local|
    ensures r[..|description|] == description
    ensures r[|description|..] == LocalSeparator + local
  {
    var r := description + LocalSeparator + local;
    assert r[|description|..] == LocalSeparator + local;
    r
  }

  /** For places without a line break, the posted description determines both
      the typed description and the place. */
  lemma FullDescriptionInjective(d1: string, l1: string, d2: string, l2: string)
    requires '\n' !in l1 && '\n' !in l2
    requires FullDescription(d1, l1) == FullDescription(d2, l2)
    ensures d1 == d2 && l1 == l2
  {
    LastBreakIsSeparator(d1, l1);
    LastBreakIsSeparator(d2, l2);
    var f := FullDescription(d1, l1);
    assert d1 == f[..|d1|] == d2;
    assert LocalSeparator + l1 == f[|d1|..] == LocalSeparator + l2;
    assert l1 == (LocalSeparator + l1)[|LocalSeparator|..];
  }

  /** The position of the last `c` in `s`, or -1. */
  function LastIndexOf(s: string, c: char): (r: int)
    ensures -1 <= r < |s|
    ensures r >= 0 ==> s[r] == c
    ensures forall k :: r < k < |s| ==> s[k] != c
  {
    if s == [] then -1
    else if s[|s| - 1] == c then |s| - 1
    else LastIndexOf(s[..|s| - 1], c)
  }

  /** The last line break of the posted description starts the separator. */
  lemma LastBreakIsSeparator(d: string, l: string)
    requires '\n' !in l
    ensures LastIndexOf(FullDescription(d, l), '\n') == |d|
  {
    var f := FullDescription(d, l);
    assert f[|d|] == (LocalSeparator + l)[0] == '\n';
    forall k | |d| < k < |f| ensures f[k] != '\n' {
      BreakAfterSeparator(d, l, k);
    }
  }

  /** Past the description's own length, the composed text has a line break
      only at the separator's start. */
  lemma BreakAfterSeparator(d: string, l: string, k: int)
    requires '\n' !in l && |d| < k < |FullDescription(d, l)|
    ensures FullDescription(d, l)[k] != '\n'
  {
    var f := FullDescription(d, l);
    assert f[|d|..] == LocalSeparator + l;
    assert f[k] == (LocalSeparator + l)[k - |d|];
    if k - |d| < |LocalSeparator| {
      assert LocalSeparator == "\n" + "📍 Local: ";
      assert '\n' !in "📍 Local: ";
      assert (LocalSeparator + l)[k - |d|] == "📍 Local: "[k - |d| - 1];
    } else {
      assert (LocalSeparator + l)[k - |d|] == l[k - |d| - |LocalSeparator|];
    }
  }

  /** The body posted: the event with its description replaced. */
  function Posted(event: EventDraft): (p: EventDraft)
    ensures p.description == FullDescription(event.description, event.local)
    ensures p.(description := event.description) == event
  {
    event.(description := FullDescription(event.description, event.local))
  }

  class NewEventPage {
    var event: EventDraft
    var categories: seq<Category>
    var imagePreviews: seq<string>
    var route: Option<string>

    /** The previews are always the event's images, added in lock-step. */
    ghost predicate Lockstep()
      reads this
    {
      imagePreviews == event.images
    }

    constructor ()
      ensures event == EmptyEvent && categories == [] && imagePreviews == [] && route == None
      ensures Lockstep()
    {
      event := EmptyEvent;
      categories := [];
      imagePreviews := [];
      route := None;
    }

    /** The mount effect: the category list, or an alert. */
    method LoadCategories(response: Option<seq<Category>>) returns (alert: Option<string>)
      modifies this
      ensures response.Some? ==> categories == response.value && alert == None
      ensures response.None? ==> categories == old(categories) && alert == Some(CategoriesFailed)
      ensures event == old(event) && imagePreviews == old(imagePreviews) && route == old(route)
    {
      if response.Some? {
        categories := response.value;
        alert := None;
      } else {
        alert := Some(CategoriesFailed);
      }
    }

    /** The four text inputs each replace one field. */
    method Edit(name: string, category: string, local: string, description: string)
      modifies this
      ensures event == old(event).(name := name, category := category, local := local, description := description)
      ensures categories == old(categories) && imagePreviews == old(imagePreviews) && route == old(route)
      ensures old(Lockstep()) ==> Lockstep()
    {
      event := event.(name := name, category := category, local := local, description := description);
    }

    /** `addEmojiToDescription(emoji)`. */
    method AddEmoji(emoji: string)
      modifies this
      ensures event == old(event).(description := old(event.description) + emoji)
      ensures categories == old(categories) && imagePreviews == old(imagePreviews) && route == old(route)
      ensures old(Lockstep()) ==> Lockstep()
    {
      event := event.(description := event.description + emoji);
    }

    /** One `FileReader` completion: the data URL joins both arrays. */
    method ImageLoaded(dataUrl: string)
      modifies this
      ensures imagePreviews == old(imagePreviews) + [dataUrl]
      ensures event == old(event).(images := old(event.images) + [dataUrl])
      ensures categories == old(categories) && route == old(route)
      ensures old(Lockstep()) ==> Lockstep()
    {
      imagePreviews := imagePreviews + [dataUrl];
      event := event.(images := event.images + [dataUrl]);
    }

    /** `handleSaveEvent`: returns the alert and the body posted, if any; the
        form is not cleared, and success moves to the dashboard. */
    method SaveEvent(responseOk: bool) returns (alert: string, posted: Option<EventDraft>)
      modifies this
      ensures !old(CanSave(event)) ==> alert == MissingFields && posted == None && route == old(route)
      ensures old(CanSave(event)) ==> posted == Some(Posted(old(event)))
      ensures old(CanSave(event)) && responseOk ==> alert == Saved && route == Some(Dashboard)
      ensures old(CanSave(event)) && !responseOk ==> alert == SaveFailed && route == old(route)
      ensures event == old(event) && categories == old(categories) && imagePreviews == old(imagePreviews)
    {
      if !CanSave(event) {
        return MissingFields, None;
      }
      posted := Some(Posted(event));
      if responseOk {
        alert := Saved;
        route := Some(Dashboard);
      } else {
        alert := SaveFailed;
      }
    }
  }
}
