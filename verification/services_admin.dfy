/** The admin services page (src/app/admin/servicos/page.tsx): a form for a
    new service whose images arrive one by one as previews, a list of the
    existing services, and add and delete handlers. The server's answers are
    parameters. */
module ServicesAdmin {
  import opened Common

  datatype Service = Service(id: string, name: string, description: string, coverImage: string, additionalImages: seq<string>)
  /** The form: a service without its id. */
  datatype Draft = Draft(name: string, description: string, coverImage: string, additionalImages: seq<string>)

  const EmptyDraft: Draft := Draft("", "", "", [])
  const MissingFields: string := "Preencha todos os campos e envie pelo menos uma imagem."
  const Added: string := "Serviço adicionado com sucesso!"
  const AddFailed: string := "Erro ao adicionar serviço."
  const Removed: string := "Serviço removido com sucesso!"
  const RemoveFailed: string := "Erro ao remover serviço."

  /** The check before the request: a name, a description and at least one image. */
  predicate CanSubmit(draft: Draft, previews: seq<string>)
  {
    draft.name != "" && draft.description != "" && previews != []
  }

  /** `{ ...newService, coverImage: previews[0], additionalImages: previews.slice(1) }`. */
  function Payload(draft: Draft, previews: seq<string>): (p: Draft)
    requires previews != []
    ensures [p.coverImage] + p.additionalImages == previews
    ensures p.name == draft.name && p.description == draft.description
  {
    draft.(coverImage := previews[0], additionalImages := previews[1..])
  }

  /** `prev.filter((service) => service._id !== id)`. */
  function WithoutId(services: seq<Service>, id: string): (r: seq<Service>)
    ensures forall i :: 0 <= i < |r| ==> r[i].id != id
    ensures forall i :: 0 <= i < |services| && services[i].id != id ==> services[i] in r
    ensures forall s: Service :: s.id != id ==> multiset(r)[s] == multiset(services)[s]
    ensures IsSubsequence(r, services)
  {
    FilterIsSubsequence(services, (s: Service) => s.id != id);
    FilterCountsAll(services, (s: Service) => s.id != id);
    Filter(services, (s: Service) => s.id != id)
  }

  /** Deleting an id nobody has changes nothing. */
  lemma WithoutAbsentId(services: seq<Service>, id: string)
    requires forall i :: 0 <= i < |services| ==> services[i].id != id
    ensures WithoutId(services, id) == services
  {
    FilterKeepsAll(services, (s: Service) => s.id != id);
  }

  /** An add request's outcome: the created service, or a failure. */
  datatype AddResponse = Created(service: Service) | AddError

  class AdminPage {
    var services: seq<Service>
    var newService: Draft
    var imagePreviews: seq<string>

    constructor ()
      ensures services == [] && newService == EmptyDraft && imagePreviews == []
    {
      services := [];
      newService := EmptyDraft;
      imagePreviews := [];
    }

    /** The mount effect; a failed load is only logged. */
    method Load(response: Option<seq<Service>>)
      modifies this
      ensures services == (if response.Some? then response.value else old(services))
      ensures newService == old(newService) && imagePreviews == old(imagePreviews)
    {
      if response.Some? {
        services := response.value;
      }
    }

    method SetName(name: string)
      modifies this
      ensures newService == old(newService).(name := name)
      ensures services == old(services) && imagePreviews == old(imagePreviews)
    {
      newService := newService.(name := name);
    }

    method SetDescription(description: string)
      modifies this
      ensures newService == old(newService).(description := description)
      ensures services == old(services) && imagePreviews == old(imagePreviews)
    {
      newService := newService.(description := description);
    }

    /** One `FileReader` completion: its data URL joins the previews. */
    method ImageLoaded(dataUrl: string)
      modifies this
      ensures imagePreviews == old(imagePreviews) + [dataUrl]
      ensures services == old(services) && newService == old(newService)
    {
      imagePreviews := imagePreviews + [dataUrl];
    }

    /** `handleAddService`: returns the alert shown and the payload posted, if any. */
    method AddService(response: AddResponse) returns (alert: string, posted: Option<Draft>)
      modifies this
      ensures !old(CanSubmit(newService, imagePreviews)) ==>
        alert == MissingFields && posted == None && unchanged(this)
      ensures old(CanSubmit(newService, imagePreviews)) ==>
        posted == Some(Payload(old(newService), old(imagePreviews)))
      ensures old(CanSubmit(newService, imagePreviews)) && response.Created? ==>
        && alert == Added && services == old(services) + [response.service]
        && newService == EmptyDraft && imagePreviews == []
      ensures old(CanSubmit(newService, imagePreviews)) && response.AddError? ==>
        alert == AddFailed && unchanged(this)
    {
      if !CanSubmit(newService, imagePreviews) {
        return MissingFields, None;
      }
      posted := Some(Payload(newService, imagePreviews));
      if response.AddError? {
        return AddFailed, posted;
      }
      services := services + [response.service];
      newService := EmptyDraft;
      imagePreviews := [];
      alert := Added;
    }

    /** `handleDeleteService(id)`: every service with that id goes on success. */
    method DeleteService(id: string, responseOk: bool) returns (alert: string)
      modifies this
      ensures responseOk ==> alert == Removed && services == WithoutId(old(services), id)
      ensures !responseOk ==> alert == RemoveFailed && services == old(services)
      ensures newService == old(newService) && imagePreviews == old(imagePreviews)
    {
      if !responseOk {
        return RemoveFailed;
      }
      services := WithoutId(services, id);
      alert := Removed;
    }
  }

  /** Images uploaded in order become the cover and the additional images of
      the posted service, in that order. */
  method UploadThenAdd(name: string, description: string, first: string, rest: seq<string>, created: Service)
    returns (posted: Option<Draft>, services: seq<Service>, previews: seq<string>)
    ensures name != "" && description != "" ==>
      posted == Some(Draft(name, description, first, rest)) && services == [created] && previews == []
    ensures name == "" || description == "" ==> posted == None && services == [] && previews == [first] + rest
  {
    var page := new AdminPage();
    page.SetName(name);
    page.SetDescription(description);
    page.ImageLoaded(first);
    var i := 0;
    while i < |rest|
      invariant 0 <= i <= |rest|
      invariant page.imagePreviews == [first] + rest[..i]
      invariant page.newService == Draft(name, description, "", []) && page.services == []
    {
      page.ImageLoaded(rest[i]);
      assert rest[..i + 1] == rest[..i] + [rest[i]];
      i := i + 1;
    }
    assert rest[..|rest|] == rest;
    var alert;
    alert, posted := page.AddService(Created(created));
    services, previews := page.services, page.imagePreviews;
  }
}
