# Evolusom front end: a verified model of its state handlers

Evolusom's front end is a Next.js site for an events and sound company. It
offers a public event gallery with likes and comments, a services catalogue,
a cart and a package builder that hand off to WhatsApp, and an admin area
protected by a cookie token. Most of it is markup and `fetch` wiring. This
project models the parts that hold logic: the small state transitions inside
the React handlers, and the pure helpers those handlers use.

The models are built as follows:

- **Components whose handlers update state become classes.** The `useState`
  fields become class fields, and each handler becomes a method with a
  `modifies` clause. Its `ensures` state the new value of every field the
  handler writes and that the other fields keep their values.
- **Pure derivations become functions with named results.** These cover
  filters, sorts, message builders, guards, validators and truncation. Lemmas
  state the properties the page relies on: uniqueness per user, prefix
  windows, cyclic ranges, permutations, round trips and if-and-only-if
  guards.
- **Outside effects become parameters.** Network outcomes, `confirm`
  dialogs, `FileReader` completions and the current time are passed in.
  Alerts, toasts and router pushes are returned, or recorded in a field.

Modules and their files:

| file | module | models |
|---|---|---|
| common.dfy | Common | JavaScript string and list helpers: `slice`, `filter`, `indexOf`, `includes`, `split`, `join`, `trim`, ASCII `toLowerCase`, and the session record |
| cyclic.dfy | Cyclic | the carousel and gallery arithmetic `(i ± 1 + n) % n` with JavaScript's truncating `%` and its `NaN` for `n == 0` |
| gallery.dfy | Gallery | the events page: category modal, gallery, keyboard dispatcher |
| viewer.dfy | Viewer | the fullscreen image viewer |
| likes.dfy | Likes | the reaction roster, the heart button and the top-3 summary |
| comments.dfy | Comments | the comment window, the validators, truncation and the author gate |
| cart_page.dfy | CartPage | the cart page, its local-storage mirror and the WhatsApp checkout link |
| cart_store.dfy | CartStore | the cart context (`useCart`) |
| packages.dfy | Packages | the package builder: the selection set and the message text |
| budgets.dfy | Budgets | the admin budget list: load, search, sort |
| guards.dfy | Guards | the two route middlewares and their `/admin/:path*` matcher |
| login.dfy | Login | the admin login: token extraction, validation, the cookie write and the browser's cookie rows |
| toast.dfy | Toasts | the toast context provider and `useToast` |
| services_page.dfy | ServicesPage | the services catalogue: carousel tick, description toggle and truncation |
| services_admin.dfy | ServicesAdmin | the admin services form and list |
| categories_admin.dfy | CategoriesAdmin | the admin categories form and list |
| new_event.dfy | NewEvent | the new-event form |

## Model

| member | source | states |
|---|---|---|
| Common.Slice | src/app/eventos/Comments.tsx:75 | `slice(from, to)` clamps the end at the length: the elements from `from` up to `min(to, n)`, empty when `from` is past that |
| Common.Filter | src/hooks/useCart.tsx:32 | `filter` keeps only elements that satisfy the predicate; each kept value keeps its number of copies and each dropped value has none; the list never grows |
| Common.FilterPartition | src/hooks/useCart.tsx:32 | a filter and its complement split the list: their lengths add up to the input's |
| Common.FilterIsSubsequence | src/hooks/useCart.tsx:32 | a filtered list is a subsequence of the original, so the order of the kept items is preserved |
| Common.FilterKeepsAll | src/app/carrinho/page.tsx:25 | a filter that every element passes returns the list unchanged |
| Common.FilterAppend | src/hooks/useCart.tsx:27-33 | filtering a concatenation is the concatenation of the two filtered parts |
| Common.SubsequenceMembers | src/hooks/useCart.tsx:32 | every element of a subsequence is an element of the list it came from |
| Common.Lower | src/app/admin/orcamentos/page.tsx:51-52 | ASCII lower-casing keeps the length and maps only `A`-`Z` |
| Common.LowerIdempotent | src/app/admin/orcamentos/page.tsx:51-52 | lower-casing twice is lower-casing once |
| Common.IndexOf | src/app/eventos/FullscreenViewer.tsx:17 | `indexOf` returns -1 exactly when the element is absent, and otherwise its first position |
| Common.IndexOfContains | src/app/admin/orcamentos/page.tsx:51-52 | `includes` holds exactly when `indexOf` finds an occurrence |
| Common.Split | src/app/admin/login/page.tsx:17-19 | `split` always yields at least one piece |
| Common.JoinAppend | src/app/carrinho/page.tsx:37-41 | joining a concatenation of two non-empty lists puts one separator between the two joined halves |
| Common.JoinSplit | src/app/admin/login/page.tsx:17-19 | joining the pieces of a split with the same separator gives back the original string |
| Common.SplitJoin | src/app/carrinho/page.tsx:37-41 | splitting a join gives back the pieces when no piece contains the separator's first character |
| Common.NoOccurrenceWithout | src/app/carrinho/page.tsx:37-41 | a string lacking the separator's first character contains no occurrence of the separator |
| Common.FirstOccurrence | src/app/admin/login/page.tsx:17-19 | the first occurrence of the separator in `a + sep + b` is just after `a` when `a` lacks its first character |
| Common.SplitPiecesFree | src/app/admin/login/page.tsx:19 | no piece of a split on a one-character separator holds that character |
| Common.TrimEmptyIff | src/app/eventos/Comments.tsx:83-86 | `trim()` is empty exactly when every character is white space |
| Common.TrimStartEmptyIff | src/app/eventos/Comments.tsx:83-86 | trimming the front gives an empty string exactly when every character is white space |
| Common.TrimStartIsSuffix | src/app/eventos/Comments.tsx:83-86 | trimming the front leaves a suffix of the input |
| Common.TrimEndEmptyIff | src/app/eventos/Comments.tsx:83-86 | trimming the back gives an empty string exactly when every character is white space |
| Common.NatToString | src/app/eventos/Likes.tsx:230 | a number in a template literal is written as decimal digits only, with no leading zero, and reading the digits back gives the number |
| Common.NatToStringUnique | src/app/eventos/Likes.tsx:230 | any digit string without a leading zero that denotes n is exactly NatToString(n) |
| Cyclic.Rem | src/app/eventos/page.tsx:67-71 | the truncating remainder equals the Euclidean one for a non-negative dividend and positive divisor, and is never positive for a negative dividend |
| Cyclic.Next | src/app/eventos/page.tsx:66-68 | `(i + 1) % n` is `(i + 1) mod n` for an index in range, and `NaN` when `n == 0` |
| Cyclic.Prev | src/app/eventos/page.tsx:70-72 | `(i - 1 + n) % n` stays in `[0, n)` for an index in range, and `NaN` when `n == 0` |
| Cyclic.PrevNext | src/app/eventos/page.tsx:67-71 | previous after next, and next after previous, return to the starting index |
| Cyclic.NextTimesIsShift | src/app/eventos/page.tsx:67 | `k` calls of next move an index in range to `(i + k) mod n` |
| Cyclic.FullCycle | src/app/eventos/page.tsx:67 | `n` calls of next return to the starting index |
| Gallery.EventsPage.constructor | src/app/eventos/page.tsx:21-25 | the page starts with no categories, no modal, no gallery images, index 0 and the gallery closed |
| Gallery.EventsPage.LoadCategories | src/app/eventos/page.tsx:28-42 | a successful fetch replaces the categories; a failure alerts and changes nothing |
| Gallery.EventsPage.OpenCategoryModal | src/app/eventos/page.tsx:44-47 | selects the category and changes nothing else |
| Gallery.EventsPage.CloseCategoryModal | src/app/eventos/page.tsx:49-52 | clears the selection and changes nothing else |
| Gallery.EventsPage.OpenGallery | src/app/eventos/page.tsx:54-59 | sets the images, the index and the open flag together |
| Gallery.EventsPage.OpenAlbum | src/app/eventos/page.tsx:146 | an album thumbnail opens its images at index 0, a valid cursor |
| Gallery.EventsPage.CloseGallery | src/app/eventos/page.tsx:61-64 | clears only the open flag; the images and index are kept |
| Gallery.EventsPage.NextImage | src/app/eventos/page.tsx:66-68 | moves the index to the cyclic successor, keeping it in range |
| Gallery.EventsPage.PrevImage | src/app/eventos/page.tsx:70-72 | moves the index to the cyclic predecessor, keeping it in range |
| Gallery.EventsPage.HandleKeyDown | src/app/eventos/page.tsx:74-90 | with neither modal open every key is ignored; Escape closes the gallery and the category modal together; any other key leaves both as they were; the arrows move the index only while the gallery is open |
| Gallery.EscapeClosesBoth | src/app/eventos/page.tsx:74-90 | with a category open and its album shown, one Escape leaves no modal and no gallery |
| Viewer.IndexOfImage | src/app/eventos/FullscreenViewer.tsx:17 | -1 exactly when the image is absent, and otherwise its first position |
| Viewer.InitialIndex | src/app/eventos/FullscreenViewer.tsx:16-19 | the first position of the image, or 0 when it is absent |
| Viewer.FullscreenViewer.constructor | src/app/eventos/FullscreenViewer.tsx:15-19 | the viewer opens at the initial index over the given images |
| Viewer.FullscreenViewer.HandleNext | src/app/eventos/FullscreenViewer.tsx:23-25 | the cyclic successor, in range |
| Viewer.FullscreenViewer.HandlePrev | src/app/eventos/FullscreenViewer.tsx:27-29 | the cyclic predecessor, in range |
| Viewer.FullscreenViewer.HandleKeyDown | src/app/eventos/FullscreenViewer.tsx:31-39 | close is requested exactly for Escape; ArrowRight moves next, ArrowLeft moves previous, and any other key changes nothing |
| Viewer.FullscreenViewer.Position | src/app/eventos/FullscreenViewer.tsx:84-86 | the counter `currentIndex + 1` lies between 1 and the number of images |
| Likes.SetEmoji | src/app/eventos/Likes.tsx:129-133 | the `map` keeps the length, every user and timestamp, and every other user's entry; it sets this user's emoji |
| Likes.React | src/app/eventos/Likes.tsx:111-156 | reacting keeps every other user's entry at its place and every user and timestamp; it grows the roster by one `{user, emoji, now}` at the end exactly when the user had no entry |
| Likes.RemoveUser | src/app/eventos/Likes.tsx:95 | no entry of the user remains; the rest keep their order and every other entry keeps its number of copies |
| Likes.ReactingName | src/app/eventos/Likes.tsx:79-109 | a reaction is stored under the session user's name when there is one, and under "Usuário Anônimo" otherwise |
| Likes.ReactUpdatesInPlace | src/app/eventos/Likes.tsx:111-133 | when the user already has an entry, reacting replaces only its emoji; the length and order are unchanged |
| Likes.ReactAppendsOnce | src/app/eventos/Likes.tsx:139-156 | when the user has no entry, reacting appends exactly one `{user, emoji}` at the end |
| Likes.ReactKeepsUnique | src/app/eventos/Likes.tsx:111-156 | reacting keeps at most one entry per user, and the user then has an entry |
| Likes.ReactLeavesOthers | src/app/eventos/Likes.tsx:111-156 | apart from the reacting user's entry, reacting leaves the list unchanged |
| Likes.RemoveAfterSetEmoji | src/app/eventos/Likes.tsx:129-133 | changing a user's emoji does not touch the other entries |
| Likes.ReactTwice | src/app/eventos/Likes.tsx:103-163 | two reactions by the same user equal one reaction with the second emoji that keeps the first timestamp |
| Likes.SetEmojiTwice | src/app/eventos/Likes.tsx:129-133 | the second emoji update overrides the first |
| Likes.Complete | src/app/eventos/Likes.tsx:111-156 | the update applied when a reaction's request returns: with an entry seen at the start, the roster keeps its length and users; without one, the new entry is appended after the roster of that moment |
| Likes.CompleteAloneIsReact | src/app/eventos/Likes.tsx:111-156 | a handler with no other one in flight updates the roster exactly as React does |
| Likes.OverlappingFirstReactions | src/app/eventos/Likes.tsx:111-156 | two first reactions by one user that overlap both append, leaving the user twice in the roster |
| Likes.OverlappingReactionsIntended | src/app/eventos/Likes.tsx:111-156 | with each update deciding against the roster it changes, two reactions leave the user exactly one entry, with the later emoji |
| Likes.RemoveDropsUser | src/app/eventos/Likes.tsx:95 | `removeReaction` drops every entry of the user and keeps the others in order |
| Likes.SubsequenceKeepsUnique | src/app/eventos/Likes.tsx:95 | removing entries keeps at most one entry per user |
| Likes.Summary | src/app/eventos/Likes.tsx:219-223 | no reactions give an empty summary; otherwise it opens with the first reaction's "user emoji" |
| Likes.MoreLabel | src/app/eventos/Likes.tsx:224-230 | the "+n outros" label is present exactly beyond three reactions, and n, the digits between "+" and " outros", is the number of reactions beyond the first three |
| Likes.SummaryShowsFirstThree | src/app/eventos/Likes.tsx:217-231 | the summary lists the first `min(3, n)` entries as "user emoji", in order, separated by ", "; the "+n outros" label appears exactly when n > 3 |
| Likes.ReactLeavesEntry | src/app/eventos/Likes.tsx:103-163 | after reacting the user has an entry |
| Likes.NamelessReactionStuck | src/app/eventos/Likes.tsx:79-185 | a signed-in user without a name reacts under "Usuário Anônimo", yet the heart is still drawn empty and a click on it does nothing |
| Likes.ReactThenUnreact | src/app/eventos/Likes.tsx:79-163 | with the heart checked against the name used for reactions, the heart is filled after a reaction and empty after a removal |
| Likes.HeartTestsAgreeWithName | src/app/eventos/Likes.tsx:185 | for a session whose user has a name, the written heart test and the intended one agree |
| Likes.LikesPanel.constructor | src/app/eventos/Likes.tsx:33-39 | the panel starts with no likes, no toast and not loading |
| Likes.LikesPanel.FetchLikes | src/app/eventos/Likes.tsx:47-63 | a successful fetch replaces the likes; a failure shows an error toast; loading ends either way |
| Likes.LikesPanel.RemoveReaction | src/app/eventos/Likes.tsx:73-101 | without a session: an error toast and no change; on success the user's entries are filtered out; a failed response leaves the likes unchanged |
| Likes.LikesPanel.HandleReaction | src/app/eventos/Likes.tsx:103-163 | without a session: an error toast and no change; on success the roster is updated (replaced in place or appended); a failed response leaves the likes unchanged |
| Likes.LikesPanel.ClickHeart | src/app/eventos/Likes.tsx:183-188 | the heart removes the reaction only when an entry matches the session's raw name, showing the success or the failure toast; otherwise the click changes neither the likes nor the toast |
| Likes.LikesPanel.ClickHeartIntended | src/app/eventos/Likes.tsx:79-188 | with the heart checked against the reacting name, a successful click always empties the heart and shows the success toast; a failed one keeps the likes and shows the failure toast |
| Likes.LikesPanel.CloseToast | src/app/eventos/Likes.tsx:172 | clears the toast and nothing else |
| Comments.InitialWindowIsPrefix | src/app/eventos/Comments.tsx:58-59 | the first window is a prefix of the comments of length `min(4, n)` |
| Comments.NextBatchExtendsPrefix | src/app/eventos/Comments.tsx:73-76 | each load-more extends the displayed prefix by `min(3, remaining)` comments, so the window stays a prefix |
| Comments.WindowAfterLoads | src/app/eventos/Comments.tsx:58-76 | after `k` loads the window is the first `min(4 + 3k, n)` comments |
| Comments.InitialWindow | src/app/eventos/Comments.tsx:58-59 | the first window is the first `min(n, 4)` comments |
| Comments.NextBatch | src/app/eventos/Comments.tsx:73-76 | a batch is the next `min(3, remaining)` comments after the displayed ones, and nothing once all are shown |
| Comments.PostingName | src/app/eventos/Comments.tsx:105 | a comment is posted under the user's non-empty name, or "Usuário Anônimo"; never under an empty name |
| Comments.CheckEdit | src/app/eventos/Comments.tsx:123-132 | an accepted edit sends the trimmed text, which is non-empty and at most 500 characters |
| Comments.EditAcceptedIff | src/app/eventos/Comments.tsx:123-132 | an edit is accepted exactly when the text has a non-blank character and at most 500 characters; the empty alert comes exactly for an all-blank text and the length alert exactly for a non-blank text over 500 |
| Comments.CheckSubmit | src/app/eventos/Comments.tsx:82-96 | an accepted submit text is at most 500 characters |
| Comments.TrimShortens | src/app/eventos/Comments.tsx:83 | trimming never lengthens the text |
| Comments.TrimEndShortens | src/app/eventos/Comments.tsx:83 | trimming the back never lengthens the text |
| Comments.SubmitAcceptedIff | src/app/eventos/Comments.tsx:83-106 | a submit is accepted exactly when the trimmed text is non-empty, the raw text is at most 500 characters, and a session user exists; the trimmed text is sent; the empty alert comes exactly for an all-blank text |
| Comments.ClampTyped | src/app/eventos/Comments.tsx:308 | typing keeps a prefix of at most 500 characters, and leaves shorter input as it is |
| Comments.EmojiCanOverflow | src/app/eventos/Comments.tsx:308-333 | an emoji inserted after 500 typed characters pushes the text over the limit, and the submit check rejects it |
| Comments.DisplayText | src/app/eventos/Comments.tsx:241-243 | a body over 500 characters shows its first 500 followed by "..."; a shorter one shows in full |
| Comments.AuthorCanModify | src/app/eventos/Comments.tsx:105-260 | a signed-in user with a non-empty name gets the edit and delete controls on every comment posted under that name |
| Comments.NamelessCannotModify | src/app/eventos/Comments.tsx:105-260 | a user without a name, or with an empty one, posts as "Usuário Anônimo" and never gets the controls on that comment |
| Comments.AuthorCanModifyIntended | src/app/eventos/Comments.tsx:105-260 | with the gate comparing the posting name, every signed-in author gets the controls on what they posted, and nobody without a signed-in user does |
| Comments.GatesAgreeWithName | src/app/eventos/Comments.tsx:260 | for a user with a non-empty name, the written gate and the intended one agree |
| Comments.Thread.constructor | src/app/eventos/Comments.tsx:31-40 | the thread starts empty, with `hasMore` true and no edit in progress |
| Comments.Thread.InitialLoad | src/app/eventos/Comments.tsx:45-71 | a load shows the first 4 comments and turns `hasMore` off when at most 4 exist, but never turns it back on; a failure records the error |
| Comments.Thread.InitialLoadIntended | src/app/eventos/Comments.tsx:45-71 | the same load, with `hasMore` set to whether more than 4 comments exist |
| Comments.Thread.FetchMore | src/app/eventos/Comments.tsx:73-80 | shows the next batch of up to 3, keeps the window a prefix, and turns `hasMore` off once everything is shown |
| Comments.Thread.Reload | src/app/eventos/Comments.tsx:174-188 | a reload resets the window to the first 4 and sets `hasMore` to whether more than 4 exist |
| Comments.Thread.Submit | src/app/eventos/Comments.tsx:82-121 | a rejected text alerts without a request; an accepted one posts the trimmed text under the session name and clears the box; a reload then shows the first 4 comments with `hasMore` set to whether more exist, and a failed reload keeps the list and records the error; the edit fields are untouched |
| Comments.Thread.Edit | src/app/eventos/Comments.tsx:123-154 | the same checks; a saved edit leaves edit mode; a reload then shows the first 4 comments with `hasMore` set to whether more exist, and a failed reload keeps the list and records the error |
| Comments.Thread.Delete | src/app/eventos/Comments.tsx:156-172 | a failed delete alerts and changes nothing; a successful one reloads as Submit does; the new-comment box and the edit fields are untouched |
| Comments.Thread.StartEdit | src/app/eventos/Comments.tsx:278-283 | enters edit mode for the comment with its text |
| Comments.Thread.CancelEdit | src/app/eventos/Comments.tsx:269-274 | leaves edit mode |
| Comments.Thread.TypeComment | src/app/eventos/Comments.tsx:308 | the new-comment text becomes the clamped input |
| Comments.Thread.InsertEmoji | src/app/eventos/Comments.tsx:333 | the emoji is appended without a clamp |
| Comments.Thread.ExpandComment | src/app/eventos/Comments.tsx:190-192 | toggles the expanded comment between this one and none |
| Comments.EventSwitchKeepsHasMoreOff | src/app/eventos/Comments.tsx:59-61 | after a short list, a longer one loaded into the same thread leaves comments unshown with `hasMore` still off |
| Comments.EventSwitchIntended | src/app/eventos/Comments.tsx:59-61 | with the intended load, the longer list turns `hasMore` back on |
| CartPage.WithoutId | src/app/carrinho/page.tsx:25 | no service with the id remains; every other service keeps its number of copies; the result is a subsequence; an absent id changes nothing |
| CartPage.WithoutIdKeepsOthers | src/app/carrinho/page.tsx:25 | every service with another id survives with all its copies, and the cart shrinks by exactly the number of entries with the id |
| CartPage.Lines | src/app/carrinho/page.tsx:37-38 | one "• name" line per service, in cart order |
| CartPage.CheckoutLink | src/app/carrinho/page.tsx:31-43 | no link for an empty cart; otherwise the fixed WhatsApp prefix, the message and the fixed suffix |
| CartPage.MessageListsCart | src/app/carrinho/page.tsx:37-41 | cutting the message at "%0A" gives back exactly the lines of the cart, in order |
| CartPage.Cart.constructor | src/app/carrinho/page.tsx:13 | the cart starts empty over the given storage |
| CartPage.Cart.Mount | src/app/carrinho/page.tsx:16-21 | a stored "cart" replaces the empty cart; otherwise it stays as it was |
| CartPage.Cart.RemoveFromCart | src/app/carrinho/page.tsx:24-28 | the cart loses the id, and the stored "cart" equals the new cart |
| CartPage.Cart.Checkout | src/app/carrinho/page.tsx:31-43 | an empty cart alerts and builds no link; otherwise the link is built from the cart |
| CartStore.RemoveId | src/hooks/useCart.tsx:31-33 | no item with the id remains, every other item keeps its number of copies, and the rest keep their order |
| CartStore.RemoveIdKeepsOthers | src/hooks/useCart.tsx:32 | every item with another id is kept, and the cart shrinks by exactly the number of entries with the id |
| CartStore.RemoveAbsentId | src/hooks/useCart.tsx:32 | removing an id nobody has changes nothing |
| CartStore.AddThenRemove | src/hooks/useCart.tsx:27-33 | adding an item with a new id and then removing that id restores the cart |
| CartStore.AddKeepsDuplicates | src/hooks/useCart.tsx:27-33 | through the cart context, adding an item already in the cart adds one more copy of it, and one remove by its id then leaves no copy |
| CartStore.CartContext.Provider | src/hooks/useCart.tsx:24-25 | a provider starts with an empty cart |
| CartStore.CartContext.Default | src/hooks/useCart.tsx:17-21 | the context default is an empty cart |
| CartStore.CartContext.AddToCart | src/hooks/useCart.tsx:27-29 | inside a provider the item is appended, growing the cart by one copy of it; the default does nothing |
| CartStore.CartContext.RemoveFromCart | src/hooks/useCart.tsx:31-33 | inside a provider every item with the id is filtered out; the default does nothing |
| CartStore.DefaultIsInert | src/hooks/useCart.tsx:17-21 | a consumer outside any provider adds and removes without effect: the cart stays empty |
| Packages.Delete | src/app/pacotes/page.tsx:18-19 | `Set.delete` removes the name, keeps every other member, and keeps the set free of duplicates |
| Packages.SubsequenceKeepsNoDup | src/app/pacotes/page.tsx:18-19 | deleting from a duplicate-free list keeps it duplicate-free |
| Packages.Toggle | src/app/pacotes/page.tsx:16-24 | the name becomes a member exactly when it was not, and membership of every other name is unchanged |
| Packages.ToggleTwice | src/app/pacotes/page.tsx:18-22 | toggling twice restores the membership; an absent name restores the exact list, and a present one moves to the end |
| Packages.ItemLines | src/app/pacotes/page.tsx:28-29 | one "- item" line per selected item, in insertion order |
| Packages.NotesText | src/app/pacotes/page.tsx:30 | the notes, or "Nenhuma." when they are empty; never empty |
| Packages.Message | src/app/pacotes/page.tsx:27-30 | the message opens with the greeting line and closes with "Notas adicionais: " followed by the notes or "Nenhuma." |
| Packages.MessageIsJoin | src/app/pacotes/page.tsx:27-31 | the message is its lines joined by "\n" |
| Packages.JoinFramed | src/app/pacotes/page.tsx:27-30 | joining a first line, some middle lines and a last line puts one separator around the middle |
| Packages.HeaderHasNoBreak | src/app/pacotes/page.tsx:28 | the greeting is a single line |
| Packages.MessageLines | src/app/pacotes/page.tsx:27-31 | cutting the message at "\n" gives the greeting, one line per item in order, and the notes line |
| Packages.PackagePage.constructor | src/app/pacotes/page.tsx:6-7 | nothing selected, no notes |
| Packages.PackagePage.HandleSelect | src/app/pacotes/page.tsx:16-24 | the selection becomes its toggle and stays free of duplicates |
| Packages.PackagePage.SetNotes | src/app/pacotes/page.tsx:73 | the notes become the input |
| Packages.PackagePage.ClickSend | src/app/pacotes/page.tsx:27-35 | nothing is sent exactly when the selection is empty, because the button is disabled then; otherwise the message is built |
| Budgets.Load | src/app/admin/orcamentos/page.tsx:25-48 | a failed status and a non-array body each give their own error and an empty list; a thrown error gives its message, anything else thrown gives "Erro desconhecido."; an array becomes the list |
| Budgets.FilterBudgets | src/app/admin/orcamentos/page.tsx:50-53 | a budget is kept exactly when its lower-cased name or event contains the lower-cased query; the result is a subsequence |
| Budgets.SearchIgnoresCase | src/app/admin/orcamentos/page.tsx:50-53 | the search matches a query exactly as it matches the query's lower-cased form |
| Budgets.EmptyQueryKeepsAll | src/app/admin/orcamentos/page.tsx:50-53 | an empty search keeps every budget, in order |
| Budgets.Insert | src/app/admin/orcamentos/page.tsx:55-63 | insertion adds one element at the front or after the head |
| Budgets.InsertKeepsOrder | src/app/admin/orcamentos/page.tsx:55-63 | inserting into a non-increasing list keeps it non-increasing |
| Budgets.PrependKeepsOrder | src/app/admin/orcamentos/page.tsx:55-63 | a head no smaller than the next key keeps the list non-increasing |
| Budgets.InsertAddsOne | src/app/admin/orcamentos/page.tsx:55-63 | insertion adds exactly the one element |
| Budgets.SortByKey | src/app/admin/orcamentos/page.tsx:55-63 | the result is non-increasing by the key and a permutation of the input |
| Budgets.SortBudgets | src/app/admin/orcamentos/page.tsx:55-63 | "createdAt" sorts newest first and "totalPrice" dearest first, with a missing price counted as 0; both give a permutation; any other value keeps the order |
| Budgets.NewestFirst | src/app/admin/orcamentos/page.tsx:56-58 | sorting by "createdAt" lists each budget before every older one |
| Budgets.DearestFirst | src/app/admin/orcamentos/page.tsx:59-61 | sorting by "totalPrice" lists dearer budgets first, and a budget without a price after every budget with a positive price |
| Budgets.SortSortedIsIdentity | src/app/admin/orcamentos/page.tsx:55-63 | a list already in order is left as it is |
| Budgets.Rows | src/app/admin/orcamentos/page.tsx:50-63 | the rows are a permutation of the search result, and each matches the query |
| Guards.RootGuard | src/middleware.ts:7-15 | a redirect always goes to /admin/login; a token lets everything through; /admin/login always passes |
| Guards.AdminGuard | src/app/admin/middleware.ts:7-11 | a redirect always goes to /login; a token lets everything through; a path outside /admin passes |
| Guards.MatchedHasPrefix | src/middleware.ts:7-20 | every path the matcher admits passes the guards' prefix test |
| Guards.RootMiddleware | src/middleware.ts:1-20 | with the matcher applied, a request is redirected to /admin/login exactly when its path is "/admin" or below it, is not /admin/login, and carries no token |
| Guards.AdminMiddleware | src/app/admin/middleware.ts:1-16 | the variant read with its matcher: redirected to /login exactly when the path is "/admin" or below it and carries no token |
| Guards.GuardsCompared | src/middleware.ts:7-15 | what the admin guard lets through, the root guard lets through; they differ exactly on /admin/login without a token |
| Guards.RedirectIff | src/middleware.ts:7-20 | each guard redirects exactly for /admin-prefixed paths without a token, the root one sparing /admin/login; behind the matcher, exactly the matched ones among them are redirected |
| Guards.PrefixIsNotASegment | src/middleware.ts:7-20 | the guards' own prefix test would redirect "/administrator" without a token; the matcher keeps that path away from them, so it passes |
| Guards.RedirectTargetsPass | src/middleware.ts:7-15 | the root guard's redirect target passes that guard; the admin guard's target passes too |
| Login.FindRow | src/app/admin/login/page.tsx:18 | `find` returns a row that starts with the prefix, and none exactly when no row does |
| Login.ExtractToken | src/app/admin/login/page.tsx:17-19 | no token exactly when no row starts with "auth-token="; a token read never holds "=", since only the text up to the next "=" is kept |
| Login.RowHasSecondPart | src/app/admin/login/page.tsx:19 | a row starting with "auth-token=" splits into at least two pieces at "=" |
| Login.ExtractFromRows | src/app/admin/login/page.tsx:17-19 | the token is read from the first "auth-token=" row among the "; "-separated rows |
| Login.RowsFreeOfSeparator | src/app/admin/login/page.tsx:17 | rows without ';' contain no "; " |
| Login.FindFirst | src/app/admin/login/page.tsx:18 | `find` stops at the first matching row |
| Login.TokenRow | src/app/admin/login/page.tsx:19 | "auth-token=" + t splits at "=" into the name and t |
| Login.CookieString | src/app/admin/login/page.tsx:63 | the assignment opens with "auth-token=" and the token, and its first ";"-separated piece is exactly that pair |
| Login.RowIndex | src/app/admin/login/page.tsx:63 | the position of the first row for a cookie name, or the row count when none exists |
| Login.SetRow | src/app/admin/login/page.tsx:63 | storing a cookie replaces its row in place, or appends the row when the name is new |
| Login.WriteCookie | src/app/admin/login/page.tsx:63 | assigning `document.cookie` stores its name-value pair, drops the attributes, and keeps every other cookie's row |
| Login.WriteToken | src/app/admin/login/page.tsx:63 | the login's write puts "auth-token=" + token in the place of the first "auth-token" row, or last |
| Login.CookieRoundTrip | src/app/admin/login/page.tsx:17-63 | after the login's cookie write, reading `document.cookie` gives back the token, whatever other cookies were stored |
| Login.ValidationRequest | src/app/admin/login/page.tsx:19-21 | a validation request is made exactly with a non-empty extracted token |
| Login.LoginForm.constructor | src/app/admin/login/page.tsx:8-11 | an empty form, no error, not loading |
| Login.LoginForm.ValidateToken | src/app/admin/login/page.tsx:15-38 | the request is made for the token read from the stored cookies, and a valid token goes to the dashboard |
| Login.LoginForm.SetEmail | src/app/admin/login/page.tsx:88-91 | the email becomes the input and the error is cleared |
| Login.LoginForm.SetPassword | src/app/admin/login/page.tsx:98-101 | the password becomes the input and the error is cleared |
| Login.LoginForm.HandleLogin | src/app/admin/login/page.tsx:40-76 | empty fields give the fill-in error and no request; success stores the "auth-token" cookie, keeping the other cookies, and goes to the dashboard; 401 gives the credentials error; other failures use the server's message or the default text; loading ends false |
| Login.LoginThenRevisit | src/app/admin/login/page.tsx:17-63 | after a login, the next visit reads and validates the same token from the stored cookies |
| Toasts.ToastProvider.constructor | src/contexts/ToastContext.tsx:28-33 | the initial toast is hidden, with an empty message and type "success" |
| Toasts.ToastProvider.ShowToast | src/contexts/ToastContext.tsx:35-52 | replaces message, type and action and makes the toast visible, so the provider renders exactly that toast |
| Toasts.ToastProvider.CloseToast | src/contexts/ToastContext.tsx:39-52 | hides the toast and keeps message, type and action, so nothing is rendered; closing a hidden toast changes nothing |
| Toasts.ToastSequence | src/contexts/ToastContext.tsx:35-52 | a second show replaces the first toast, and a second close after the first changes nothing |
| ServicesPage.Images | src/app/servicos/page.tsx:35 | the images are the cover followed by the additional images |
| ServicesPage.LastAdvancing | src/app/servicos/page.tsx:33-38 | finds the last service whose carousel advances: the hovered one, with more than one image |
| ServicesPage.Tick | src/app/servicos/page.tsx:32-41 | the `forEach` copy advances only the last hovered card with two or more images, to `((prev ‖ 0) + 1) % images`, and leaves the map unchanged when no card advances |
| ServicesPage.TickFacts | src/app/servicos/page.tsx:33-40 | every other service's index is unchanged by a tick, and the advanced index is below the image count |
| ServicesPage.CarouselCycles | src/app/servicos/page.tsx:32-41 | for the card a tick advances, from an index in range, the new index is the cyclic successor over its images, and as many such steps as images return to the start |
| ServicesPage.ToggleDescription | src/app/servicos/page.tsx:47-52 | flips only the given id, with a missing entry counted as false |
| ServicesPage.ToggleTwice | src/app/servicos/page.tsx:47-52 | toggling twice restores every entry and sets the toggled one to its old value |
| ServicesPage.DescriptionText | src/app/servicos/page.tsx:84-86 | an expanded description shows in full; a collapsed one shows its first 100 characters followed by "..." |
| ServicesPage.Page.constructor | src/app/servicos/page.tsx:15-18 | no services, no expanded descriptions, no indices, nothing hovered |
| ServicesPage.Page.Load | src/app/servicos/page.tsx:20-28 | a successful fetch replaces the services |
| ServicesPage.Page.MouseEnter | src/app/servicos/page.tsx:67 | the hovered id is set |
| ServicesPage.Page.MouseLeave | src/app/servicos/page.tsx:68 | the hovered id is cleared |
| ServicesPage.Page.OnInterval | src/app/servicos/page.tsx:32-41 | an interval tick sets the hovered card's index to `((prev ‖ 0) + 1) % images` and changes no other index |
| ServicesPage.Page.Toggle | src/app/servicos/page.tsx:47-52 | the expanded map becomes its toggle |
| ServicesAdmin.Payload | src/app/admin/servicos/page.tsx:39-43 | the cover followed by the additional images equals the previews; name and description are kept |
| ServicesAdmin.WithoutId | src/app/admin/servicos/page.tsx:76 | no service with the id remains, every other service keeps its number of copies, and the order is preserved |
| ServicesAdmin.WithoutAbsentId | src/app/admin/servicos/page.tsx:76 | deleting an id nobody has changes nothing |
| ServicesAdmin.AdminPage.constructor | src/app/admin/servicos/page.tsx:14-21 | no services, an empty form, no previews |
| ServicesAdmin.AdminPage.Load | src/app/admin/servicos/page.tsx:24-29 | a successful fetch replaces the services |
| ServicesAdmin.AdminPage.SetName | src/app/admin/servicos/page.tsx:120 | only the name changes |
| ServicesAdmin.AdminPage.SetDescription | src/app/admin/servicos/page.tsx:126 | only the description changes |
| ServicesAdmin.AdminPage.ImageLoaded | src/app/admin/servicos/page.tsx:86-97 | each completed upload appends one preview |
| ServicesAdmin.AdminPage.AddService | src/app/admin/servicos/page.tsx:32-65 | without a name, a description and at least one image it alerts with no request; success appends the created service and resets the form and previews; a failure changes nothing |
| ServicesAdmin.AdminPage.DeleteService | src/app/admin/servicos/page.tsx:68-83 | a successful delete filters out the id; a failed one changes nothing |
| ServicesAdmin.UploadThenAdd | src/app/admin/servicos/page.tsx:32-97 | images uploaded in order become the cover and the additional images of the posted service; a missing name or description posts nothing and keeps the previews |
| CategoriesAdmin.WithoutId | src/app/admin/categorias/page.tsx:89 | no category with the id remains, every other category keeps its number of copies, and the order is preserved |
| CategoriesAdmin.CategoriesPage.constructor | src/app/admin/categorias/page.tsx:12-18 | no categories, an empty form, no preview, not loading |
| CategoriesAdmin.CategoriesPage.Load | src/app/admin/categorias/page.tsx:24-33 | a successful fetch replaces the categories |
| CategoriesAdmin.CategoriesPage.SetName | src/app/admin/categorias/page.tsx:110 | only the name changes |
| CategoriesAdmin.CategoriesPage.ImageLoaded | src/app/admin/categorias/page.tsx:35-45 | the form image and the preview are set to the same value |
| CategoriesAdmin.CategoriesPage.AddCategory | src/app/admin/categorias/page.tsx:47-76 | a missing name or image alerts with no request; success appends the category and resets the form and preview; loading ends false either way |
| CategoriesAdmin.CategoriesPage.DeleteCategory | src/app/admin/categorias/page.tsx:78-95 | nothing happens unless confirmed; a successful delete filters out the id; a failed one changes nothing |
| NewEvent.FullDescription | src/app/admin/eventos/novo/page.tsx:73 | the description, followed by "\n📍 Local: ", followed by the location |
| NewEvent.FullDescriptionInjective | src/app/admin/eventos/novo/page.tsx:73 | for a one-line location, the description and the location can be read back from the composed text |
| NewEvent.LastIndexOf | src/app/admin/eventos/novo/page.tsx:73 | the last position of a character, or -1 |
| NewEvent.LastBreakIsSeparator | src/app/admin/eventos/novo/page.tsx:73 | for a one-line location, the last line break is the separator's |
| NewEvent.BreakAfterSeparator | src/app/admin/eventos/novo/page.tsx:73 | no line break follows the separator's |
| NewEvent.Posted | src/app/admin/eventos/novo/page.tsx:73-77 | the sent event has the composed description, and every other field unchanged |
| NewEvent.NewEventPage.constructor | src/app/admin/eventos/novo/page.tsx:17-25 | an empty form, no categories, no images |
| NewEvent.NewEventPage.LoadCategories | src/app/admin/eventos/novo/page.tsx:29-43 | a successful fetch replaces the categories; a failure alerts |
| NewEvent.NewEventPage.Edit | src/app/admin/eventos/novo/page.tsx:99-127 | the form fields take the inputs; the images are untouched |
| NewEvent.NewEventPage.AddEmoji | src/app/admin/eventos/novo/page.tsx:62-64 | the emoji is appended to the description and nothing else changes |
| NewEvent.NewEventPage.ImageLoaded | src/app/admin/eventos/novo/page.tsx:45-60 | each loaded image is appended to both the previews and the event's images, keeping them equal |
| NewEvent.NewEventPage.SaveEvent | src/app/admin/eventos/novo/page.tsx:66-88 | without a name, a category, a description and at least one image it alerts with no request; otherwise the composed event is sent, and success goes to the dashboard |

## Left out

- Network, storage and session. Every `fetch` and its REST backend are absent; each network outcome is a parameter (success flag, body or error message). `JSON.parse`/`stringify` are absent: local storage is a map from key to the already parsed list. The next-auth session is an optional record holding an optional name.
- Side effects. `alert`, `console.error` and `router.push` are returned as values or recorded in a `route` field.
- Timers and the DOM. `src/components/Toast.tsx` is a timer and a transition listener. Also absent: the `setInterval` around the services carousel (only one tick is modelled), the keyboard listener registration, `document.body.style.overflow`, `focus()`, the click-outside emoji handler and the infinite-scroll trigger.
- Display toggles. The emoji picker and the "show all likes" visibility flags are not modelled.
- The heart button's `disabled` state is not modelled; `isLoading` itself is kept as a field.
- Comments' "Ver mais" button is not modelled. It is shown only while `expandedComment` is null, so it is a markup condition.
- Uploads. `FileReader` completion order is not deterministic; each completion is one call that appends one value.
- Dates are integer timestamps; `date-fns`, `toLocaleString` and `new Date` are not modelled. Prices are integers; floating point and `toFixed` are not modelled.
- Text model. Lower-casing is ASCII only. White space for `trim` is the ASCII set plus the no-break space and the byte-order mark, not every Unicode space. Lengths count Dafny characters, not UTF-16 code units, so an emoji outside the basic plane counts as one character here and as two in the browser.
- `encodeURIComponent`, the percent-encoding of section 2.1 of RFC 3986, is not modelled. The package message is stated before encoding. The cart link is built from the literal "%0A" separator that the page writes itself.
- The markup-only pages are not part of this model: about, contato, Header, Footer, DJSlider, dashboard, home, layout, the DJ page and the Next.js configuration.
- The cart add keeps duplicates, no order is posted before the WhatsApp link opens, and the gallery has no back navigation; the model follows the code.
- Budgets.SortByKey: `Array.prototype.sort` is stable. Stability is stated only as "a list already in order is unchanged" (Budgets.SortSortedIsIdentity), not as the full order of equal keys.
- Budgets.Insert: its own contract gives only the length and the head; ordering and contents are the separate lemmas beside it.
- Login.CookieString is built as the join of "auth-token=" + token with the four attributes. It is not compared with one literal string.
- Login.WriteCookie: the browser's cookie store is reduced to its visible rows. The path, expiry, `Secure` and `SameSite` attributes, the trimming of white space around the pair, and the order a browser lists cookies in are not modelled; a replaced cookie keeps its place and a new one goes last.
- Likes.LikesPanel.HandleReaction runs each reaction handler to completion before the next one starts. In the browser the emoji buttons stay enabled while a request is pending, so two first reactions can overlap and both append; Likes.OverlappingFirstReactions states that case (see Findings).
- Guards: Next.js loads a middleware only from the project root or `src/`, so src/app/admin/middleware.ts is never run. Guards.AdminGuard and Guards.AdminMiddleware model that file as written.

## Findings

| source | as written | input that shows it | evidently intended | confidence | as-written member | corrected member |
|---|---|---|---|---|---|---|
| src/app/eventos/Likes.tsx:185 | The heart tests for an entry under `session?.user?.name`, but reactions are stored under `session.user?.name ?? "Usuário Anônimo"` (lines 79, 109). | A session whose user has no name reacts: the roster gains a "Usuário Anônimo" entry, yet the heart stays empty and clicking it does nothing. | The heart tests the same name the reaction was stored under, so a reaction can always be withdrawn. | medium, not executed | Likes.LikesPanel.ClickHeart, Likes.NamelessReactionStuck | Likes.LikesPanel.ClickHeartIntended, Likes.ReactThenUnreact |
| src/app/eventos/Likes.tsx:111-156 | `handleReaction` looks the user up in `likes` before its request (line 111) and appends with `prev => [...prev, newLike]` after it (line 155); the emoji buttons are never disabled (line 205). | A user with no reaction clicks two emojis before the first POST returns: both handlers saw no entry, both append, and the roster lists the user twice. | The update decides against the roster it changes (`prev`), updating the user's entry when there is one, so each user keeps one entry. | medium, not executed | Likes.Complete, Likes.OverlappingFirstReactions | Likes.React, Likes.OverlappingReactionsIntended |
| src/app/eventos/Comments.tsx:59-61 | The initial load only ever sets `hasMore` to false (when at most 4 comments exist); it never sets it back to true. | The component loads a list of at most 4 comments and then, for another `eventId`, a list of 5 or more: `hasMore` stays false and comments past the fourth are never loaded. | The load sets `hasMore` to whether more than 4 comments exist, as `reloadComments` does at line 183. | low, not executed; it needs the component to be reused across `eventId` values | Comments.Thread.InitialLoad, Comments.EventSwitchKeepsHasMoreOff | Comments.Thread.InitialLoadIntended, Comments.EventSwitchIntended |
| src/app/eventos/Comments.tsx:105-260 | A comment is posted under the session user's name, or under "Usuário Anônimo" when that name is missing or empty (line 105), but its edit and delete controls appear only when `comment.user === session?.user?.name` (line 260). | A signed-in user without a name, or with an empty one, posts a comment: it is stored under "Usuário Anônimo", and the author never sees the controls to edit or delete it. | The controls compare the comment's author with the name the user posts under. All nameless users then share "Usuário Anônimo", so a real fix needs an author id; the model states only the name comparison. | medium, not executed | Comments.NamelessCannotModify | Comments.AuthorCanModifyIntended |
