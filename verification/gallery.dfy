/** The public events page (src/app/eventos/page.tsx): a grid of categories,
    a modal listing the events of the selected category, and a gallery modal
    that pages through one event's images. The page's useState fields are the
    fields of `EventsPage`; every handler is a method. */
module Gallery {
  import opened Common
  import opened Cyclic

  datatype Event = Event(id: string, name: string, images: seq<string>, description: string)
  datatype Category = Category(id: string, name: string, image: string, events: seq<Event>)

  const LoadFailedAlert: string := "Não foi possível carregar as categorias com eventos."

  class EventsPage {
    var categories: seq<Category>
    var selectedCategory: Option<Category>
    var galleryImages: seq<string>
    var currentImageIndex: Num
    var isGalleryOpen: bool

    /** While the gallery shows a non-empty album, the cursor points at one of its images. */
    ghost predicate CursorValid()
      reads this
    {
      isGalleryOpen && |galleryImages| > 0 ==> InRange(currentImageIndex, |galleryImages|)
    }

    constructor ()
      ensures categories == [] && selectedCategory == None && galleryImages == []
      ensures currentImageIndex == Int(0) && !isGalleryOpen
      ensures CursorValid()
    {
      categories := [];
      selectedCategory := None;
      galleryImages := [];
      currentImageIndex := Int(0);
      isGalleryOpen := false;
    }

    /** The mount effect: `response` is the parsed category list, or None when
        the request failed; a failure raises an alert and keeps the list. */
    method LoadCategories(response: Option<seq<Category>>) returns (alert: Option<string>)
      modifies this
      ensures categories == (if response.Some? then response.value else old(categories))
      ensures alert == (if response.Some? then None else Some(LoadFailedAlert))
      ensures selectedCategory == old(selectedCategory) && galleryImages == old(galleryImages)
      ensures currentImageIndex == old(currentImageIndex) && isGalleryOpen == old(isGalleryOpen)
    {
      if response.Some? {
        categories := response.value;
        alert := None;
      } else {
        alert := Some(LoadFailedAlert);
      }
    }

    method OpenCategoryModal(category: Category)
      modifies this
      ensures selectedCategory == Some(category)
      ensures categories == old(categories) && galleryImages == old(galleryImages)
      ensures currentImageIndex == old(currentImageIndex) && isGalleryOpen == old(isGalleryOpen)
      ensures old(CursorValid()) ==> CursorValid()
    {
      selectedCategory := Some(category);
    }

    method CloseCategoryModal()
      modifies this
      ensures selectedCategory == None
      ensures categories == old(categories) && galleryImages == old(galleryImages)
      ensures currentImageIndex == old(currentImageIndex) && isGalleryOpen == old(isGalleryOpen)
      ensures old(CursorValid()) ==> CursorValid()
    {
      selectedCategory := None;
    }

    /** `openGallery(images, index)`: images, cursor and open flag are set together. */
    method OpenGallery(images: seq<string>, index: int)
      modifies this
      ensures galleryImages == images && currentImageIndex == Int(index) && isGalleryOpen
      ensures categories == old(categories) && selectedCategory == old(selectedCategory)
      ensures 0 <= index < |images| ==> CursorValid()
    {
      galleryImages := images;
      currentImageIndex := Int(index);
      isGalleryOpen := true;
    }

    /** The album thumbnail in the category modal: `openGallery(event.images, 0)`. */
    method OpenAlbum(event: Event)
      modifies this
      ensures galleryImages == event.images && currentImageIndex == Int(0) && isGalleryOpen
      ensures categories == old(categories) && selectedCategory == old(selectedCategory)
      ensures CursorValid()
    {
      OpenGallery(event.images, 0);
    }

    /** Only the open flag changes; images and cursor are kept for the next opening. */
    method CloseGallery()
      modifies this
      ensures !isGalleryOpen
      ensures galleryImages == old(galleryImages) && currentImageIndex == old(currentImageIndex)
      ensures categories == old(categories) && selectedCategory == old(selectedCategory)
      ensures CursorValid()
    {
      isGalleryOpen := false;
    }

    method NextImage()
      modifies this
      ensures currentImageIndex == Next(old(currentImageIndex), |galleryImages|)
      ensures galleryImages == old(galleryImages) && isGalleryOpen == old(isGalleryOpen)
      ensures categories == old(categories) && selectedCategory == old(selectedCategory)
      ensures old(CursorValid()) ==> CursorValid()
    {
      currentImageIndex := Next(currentImageIndex, |galleryImages|);
    }

    method PrevImage()
      modifies this
      ensures currentImageIndex == Prev(old(currentImageIndex), |galleryImages|)
      ensures galleryImages == old(galleryImages) && isGalleryOpen == old(isGalleryOpen)
      ensures categories == old(categories) && selectedCategory == old(selectedCategory)
      ensures old(CursorValid()) ==> CursorValid()
    {
      currentImageIndex := Prev(currentImageIndex, |galleryImages|);
    }

    /** The window `keydown` listener. Nothing happens unless a modal is open;
        Escape closes every open modal at once; the arrows move the cursor only
        while the gallery is open. */
    method HandleKeyDown(key: string)
      modifies this
      ensures var active := old(isGalleryOpen) || old(selectedCategory).Some?;
        && (active && key == "Escape" ==> !isGalleryOpen && selectedCategory == None)
        && (active && key == "ArrowRight" && old(isGalleryOpen) ==>
              currentImageIndex == Next(old(currentImageIndex), |galleryImages|))
        && (active && key == "ArrowLeft" && old(isGalleryOpen) ==>
              currentImageIndex == Prev(old(currentImageIndex), |galleryImages|))
        && (key != "Escape" || !active ==> isGalleryOpen == old(isGalleryOpen) && selectedCategory == old(selectedCategory))
        && (!(active && old(isGalleryOpen) && (key == "ArrowRight" || key == "ArrowLeft")) ==>
              currentImageIndex == old(currentImageIndex))
      ensures galleryImages == old(galleryImages) && categories == old(categories)
      ensures old(CursorValid()) ==> CursorValid()
    {
      if isGalleryOpen || selectedCategory.Some? {
        if key == "Escape" {
          if isGalleryOpen { CloseGallery(); }
          if selectedCategory.Some? { CloseCategoryModal(); }
        } else if key == "ArrowRight" {
          if isGalleryOpen { NextImage(); }
        } else if key == "ArrowLeft" {
          if isGalleryOpen { PrevImage(); }
        }
      }
    }
  }

  /** With both modals open, one Escape closes both: there is no one-level back. */
  method EscapeClosesBoth(category: Category, event: Event) returns (galleryOpen: bool, selected: Option<Category>)
    ensures !galleryOpen && selected == None
  {
    var page := new EventsPage();
    page.OpenCategoryModal(category);
    page.OpenAlbum(event);
    page.HandleKeyDown("Escape");
    galleryOpen, selected := page.isGalleryOpen, page.selectedCategory;
  }
}
