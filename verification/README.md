# Video game storefront — a Dafny model

This project models the behaviour of a Next.js video game store: the
shopping cart shared by the store's pages, the home page's catalog
selections and hero carousel, the cart sheet and its checkout form, the
admin page and its two-click delete, the account and purchase API routes,
and the middleware that guards the admin pages.

One module per source file:

| module | file | source |
|---|---|---|
| `Models` | models.dfy | the records of `lib/models` (games, users, sessions, purchases) |
| `Http` | http.dfy | error bodies, the `auth-token` cookie, how a client `fetch` ends |
| `Sequences` | sequences.dfy | the array operations the pages use: `filter`, `slice`, `new Set`, `flat`, `sort` |
| `Store` | store.dfy | the `users` and `purchases` collections and `findOne({ email })` |
| `Cart` | cart.dfy | `contexts/cart-context.tsx` |
| `Catalog` | catalog.dfy | `app/page.tsx` |
| `Carousel` | carousel.dfy | `components/store/game-carousel.tsx` |
| `GamesTable` | games_table.dfy | `components/admin/games-table.tsx` |
| `Checkout` | checkout.dfy | `components/cart/checkout-form.tsx` |
| `Sidebar` | sidebar.dfy | `components/cart/cart-sidebar.tsx` |
| `AdminPage` | admin.dfy | `app/admin/page.tsx` |
| `RegisterRoute`, `LoginRoute`, `UsersRoute`, `PurchasesRoute` | register.dfy, login.dfy, users_route.dfy, purchases_route.dfy | the route handlers under `app/api` |
| `Middleware` | middleware.dfy | `middleware.ts` |

Units and representation:
- Prices are integer cents.
- Ratings are integer tenths, so the featured threshold `8.0` is `80`.
- Every date is an integer timestamp.
- Ids are strings.

State that React keeps in `useState` becomes a field of a class, and each handler becomes a method that updates it. The cart's provider becomes `Cart.CartStore`, the carousel becomes `Carousel.GameCarousel`, and so on. Each method is specified by a pure function of the old state: `Cart.Added`, `Cart.Removed`, `Cart.Updated`, `GamesTable.React`, `Carousel.Next`. The lemmas are proved about those functions.

The handlers also depend on things the model cannot see. Each of these is a parameter:
- the password hash and the password comparison
- the token signer and the token verifier
- the id the database assigns and the current time
- the outcome of every `fetch`

## Model

| member | source | states |
|---|---|---|
| Cart.Added | contexts/cart-context.tsx:46-56 | adding a game already in the cart keeps the length; adding a new one grows the list by one |
| Cart.AddAbsent | contexts/cart-context.tsx:52-54 | a game not in the cart is appended with quantity 1, earlier entries untouched; item count +1, total + the game's price |
| Cart.AddPresent | contexts/cart-context.tsx:48-51 | a game already in the cart only bumps that entry's quantity in place; item count +1, total + that entry's price |
| Cart.IncrementedAt | contexts/cart-context.tsx:51 | with unique ids the `map` changes only the matching entry |
| Cart.AddPreservesWellFormed | contexts/cart-context.tsx:46-56 | adding keeps ids unique and quantities positive |
| Cart.Removed | contexts/cart-context.tsx:58-60 | removal never lengthens the list |
| Cart.RemovedAt | contexts/cart-context.tsx:59 | with unique ids the filter deletes exactly the entry holding the id, keeping the others in order |
| Cart.RemovePresent | contexts/cart-context.tsx:58-60 | removing a held id deletes that entry and lowers both totals by its share |
| Cart.RemoveAbsent | contexts/cart-context.tsx:58-60 | removing an id not in the cart changes nothing |
| Cart.DeleteAtPreserves | contexts/cart-context.tsx:58-60 | deleting one entry keeps the cart well formed and leaves no entry with that id |
| Cart.RemovePreservesWellFormed | contexts/cart-context.tsx:58-60 | removal keeps the cart well formed and the id is gone afterwards |
| Cart.Updated | contexts/cart-context.tsx:62-69 | an update never lengthens the list |
| Cart.UpdateNonPositiveRemoves | contexts/cart-context.tsx:63-66 | a quantity of zero or less is exactly `removeFromCart` |
| Cart.UpdatePresent | contexts/cart-context.tsx:68 | a positive quantity replaces only the matching entry's quantity, and the item count moves by the difference |
| Cart.UpdateAbsent | contexts/cart-context.tsx:68 | a positive quantity for an id not in the cart changes nothing (no insertion) |
| Cart.UpdatePreservesWellFormed | contexts/cart-context.tsx:62-69 | updating keeps the cart well formed |
| Cart.TotalItems | contexts/cart-context.tsx:79-81 | with positive quantities the item count is at least the number of entries |
| Cart.TotalPrice | contexts/cart-context.tsx:75-77 | the total is non-negative when no line is negative |
| Cart.TotalsSingle | contexts/cart-context.tsx:75-81 | a one-entry cart counts that entry's quantity and line price |
| Cart.TotalsAppend | contexts/cart-context.tsx:75-81 | both folds distribute over concatenation |
| Cart.TotalsReplace | contexts/cart-context.tsx:75-81 | replacing one entry changes the totals by that entry's difference alone |
| Cart.TotalsBump | contexts/cart-context.tsx:51 | one more copy of an entry adds one item and that entry's price |
| Cart.TotalsDelete | contexts/cart-context.tsx:59 | deleting one entry lowers the totals by its share |
| Cart.TotalItemsPositiveIffNonEmpty | contexts/cart-context.tsx:79-81 | in a well-formed cart the item count is positive exactly when the cart is non-empty |
| Cart.CartStore.constructor | contexts/cart-context.tsx:26-27 | the cart starts empty and closed |
| Cart.CartStore.AddToCart | contexts/cart-context.tsx:46-56 | the new items are `Added(old items)`, the invariant holds, the item count grows by one and `isOpen` is kept |
| Cart.CartStore.RemoveFromCart | contexts/cart-context.tsx:58-60 | the new items are `Removed(old items)`, the invariant holds and the id is gone |
| Cart.CartStore.UpdateQuantity | contexts/cart-context.tsx:62-69 | the new items are `Updated(old items)`; a quantity of zero or less removes |
| Cart.CartStore.ClearCart | contexts/cart-context.tsx:71-73 | the cart becomes empty with totals 0 |
| Cart.CartStore.SetIsOpen | contexts/cart-context.tsx:27 | only `isOpen` changes |
| Sequences.Filter | app/page.tsx:47-59 | `filter` keeps exactly the passing elements and never grows |
| Sequences.FilterIsSubsequence | app/page.tsx:47-59 | `filter` keeps the original order |
| Sequences.FilterTwice | app/page.tsx:54-59 | filtering in stages is filtering once by the conjunction |
| Sequences.Distinct | app/page.tsx:70-71 | `[...new Set(xs)]` has no duplicates, exactly the values of `xs`, and lists them in the order of their first occurrence |
| Sequences.Flatten | app/page.tsx:71 | `flatMap` holds exactly the values of the inner lists |
| Sequences.SortDesc | app/page.tsx:67 | the descending sort is a permutation and is sorted, largest key first, and it is stable: the elements of each key keep their order |
| Sequences.InsertDescStable | app/page.tsx:67 | inserting an element puts it ahead of every element with its key and keeps their order |
| Sequences.TopOfSortDesc | app/page.tsx:66-68 | the first `n` of the descending sort come from the list, no left-out element has a larger key, and among equal keys the first ones in list order are kept |
| Sequences.Take | app/page.tsx:65 | `slice(0, n)` is a prefix of length min(n, length), so it takes each element at most as often as the list holds it |
| Catalog.Lower | app/page.tsx:49-50 | `toLowerCase`: same length, no capital left, each capital becomes its small letter, every other character kept |
| Catalog.LowerIdempotent | app/page.tsx:49-50 | lowercasing an already lowercased string changes nothing |
| Catalog.Includes | app/page.tsx:49-50 | `includes`: the empty string occurs in every string; nothing longer than the haystack occurs in it |
| Catalog.LowerKeepsOccurrence | app/page.tsx:49-50 | an occurrence of the needle is still one after lowercasing both strings |
| Catalog.MatchesSearch | app/page.tsx:48-50 | the empty term matches every game; a matching term is no longer than the title or the developer |
| Catalog.SearchIgnoresCase | app/page.tsx:46-52 | a term and its lowercase find the same games, and a title or developer containing the term as typed is found |
| Catalog.FilterGames | app/page.tsx:43-63 | the staged filters equal one filter by all active tests; the result keeps catalog order, holds exactly the matching games, and is the whole catalog when no filter is active |
| Catalog.Featured | app/page.tsx:65 | at most 6 games, each rated 8.0 or more and in the catalog |
| Catalog.FeaturedAreFirstRated | app/page.tsx:65 | the featured games are the first highly rated ones in catalog order; a highly rated game is left out only when 6 are shown |
| Catalog.NewReleases | app/page.tsx:66-68 | at most 8 games, newest first, a sub-multiset of the catalog (each game shown at most as often as it is listed), no left-out game is newer than a shown one, and games of one release date are the first ones of that date in catalog order |
| Catalog.SortNewestFirstInPlace | app/page.tsx:66-67 | the `games` array itself is reordered newest first |
| Catalog.RenderAsWritten | app/page.tsx:65-68 | a render features from the current array, then leaves the array sorted by date |
| Catalog.RerenderReordersFeatured | app/page.tsx:65-68 | for a two-game catalog the next render features the games in the reverse order |
| Catalog.Render | app/page.tsx:65-68 | with the sort on a copy the catalog is only read; featured and new releases are as specified |
| Catalog.Genres | app/page.tsx:70 | each genre of the catalog once, and nothing else |
| Catalog.Platforms | app/page.tsx:71 | each platform of any game once, and nothing else |
| Carousel.JsRem | components/store/game-carousel.tsx:21 | JavaScript's `%`: the dividend minus a whole multiple of the divisor, with the dividend's sign and below the divisor in size |
| Carousel.Next | components/store/game-carousel.tsx:31-33 | an index in range stays in range, steps by one and wraps from last to first; with no games the index is `NaN` |
| Carousel.Previous | components/store/game-carousel.tsx:27-29 | an index in range stays in range, steps back by one and wraps from first to last |
| Carousel.NextPreviousInverse | components/store/game-carousel.tsx:27-33 | the two arrows undo each other |
| Carousel.AdvanceWraps | components/store/game-carousel.tsx:20-22 | `k` interval ticks move the index `k` places, wrapping at most once |
| Carousel.FullCycle | components/store/game-carousel.tsx:20-22 | after as many ticks as there are games the same game is shown again |
| Carousel.GameCarousel.constructor | components/store/game-carousel.tsx:17 | the index starts at 0 |
| Carousel.GameCarousel.GoToNext | components/store/game-carousel.tsx:31-33 | the index becomes `Next` of the old one and stays in range |
| Carousel.GameCarousel.GoToPrevious | components/store/game-carousel.tsx:27-29 | the index becomes `Previous` of the old one and stays in range |
| Carousel.GameCarousel.Tick | components/store/game-carousel.tsx:20-22 | the interval takes the same step as the right arrow |
| Carousel.GameCarousel.SelectDot | components/store/game-carousel.tsx:119-123 | a dot selects its own index |
| Carousel.GameCarousel.CurrentGame | components/store/game-carousel.tsx:35-37 | nothing is shown exactly when there are no games; otherwise the shown game is one of them |
| Carousel.GameCarousel.DotIsActive | components/store/game-carousel.tsx:122 | the highlighted dot is in range and is the dot of the game on show; no other dot is highlighted with it |
| GamesTable.React | components/admin/games-table.tsx:20-28 | a click deletes exactly when it repeats the armed id, then disarms; any other click arms its row; a timeout disarms whatever is armed |
| GamesTable.ArmedIsLastClick | components/admin/games-table.tsx:18-28 | only the latest event can leave a row armed, and it is a click on that row that was not armed before it; a timeout or no event leaves nothing armed |
| GamesTable.DeleteNeedsRepeatedClick | components/admin/games-table.tsx:21-25 | a click deletes exactly when the event before it was a click on the same row that left it armed |
| GamesTable.DeletedWereClicked | components/admin/games-table.tsx:21-23 | every id handed to `onDelete` over any run was clicked twice in a row |
| GamesTable.StaleTimerDisarmsNewerRow | components/admin/games-table.tsx:26 | the timer of an earlier click disarms a row armed later |
| GamesTable.ButtonVariant | components/admin/games-table.tsx:94 | the destructive variant is shown exactly for the armed row |
| GamesTable.AtMostOneDestructiveRow | components/admin/games-table.tsx:94 | at most one row is destructive, none when nothing is armed |
| GamesTable.DeleteConfirmation.constructor | components/admin/games-table.tsx:18 | nothing is armed at first |
| GamesTable.DeleteConfirmation.HandleDelete | components/admin/games-table.tsx:20-28 | a delete happens exactly for the armed id, then disarms; otherwise the row is armed and a timer is started |
| GamesTable.DeleteConfirmation.TimerFires | components/admin/games-table.tsx:26 | a firing timer disarms unconditionally |
| GamesTable.DeleteConfirmation.IsDestructive | components/admin/games-table.tsx:94 | a row's button is destructive exactly when its next click deletes that row, and then every other row's button is outline |
| Checkout.LineItem | components/cart/checkout-form.tsx:41-46 | a payload line copies the entry's game id, title, price and quantity |
| Checkout.LineItems | components/cart/checkout-form.tsx:41-46 | one payload line per cart entry, in order |
| Checkout.LineItemsTotal | components/cart/checkout-form.tsx:41-47 | the payload's lines add up to `getTotalPrice()` |
| Checkout.PurchaseData | components/cart/checkout-form.tsx:39-48 | the owner is the logged-in user's id if any; lines copy the cart pointwise; `totalAmount` is the cart total and matches the lines |
| Checkout.SubmittedOrderIsStored | components/cart/checkout-form.tsx:39-56 | the route stores the payload as a pending purchase whose total agrees with its lines, and the user's listing shows it |
| Checkout.CheckoutForm.constructor | components/cart/checkout-form.tsx:22-31 | not loading, all seven fields empty |
| Checkout.CheckoutForm.Edit | components/cart/checkout-form.tsx:113-196 | an input edit replaces the form data, only while not loading |
| Checkout.CheckoutForm.BeginSubmit | components/cart/checkout-form.tsx:33-56 | loading is set and the request is `PurchaseData` of the user and cart |
| Checkout.CheckoutForm.FinishSubmit | components/cart/checkout-form.tsx:58-70 | `onSuccess` runs exactly for an ok response; loading is cleared on every path |
| Sidebar.Render | components/cart/cart-sidebar.tsx:40-80 | the badge shows the item count only when positive; the form replaces the list; empty message and totals section exclude each other; checkout is enabled exactly with a user |
| Sidebar.BadgeIffTotals | components/cart/cart-sidebar.tsx:40-64 | in a well-formed cart the badge and the totals section appear together, exactly when the cart is non-empty |
| Sidebar.CartSidebar.constructor | components/cart/cart-sidebar.tsx:16 | the checkout form starts hidden |
| Sidebar.CartSidebar.HandleCheckout | components/cart/cart-sidebar.tsx:18-25 | without a user the alert shows and nothing changes; with one the form opens |
| Sidebar.CartSidebar.CancelCheckout | components/cart/cart-sidebar.tsx:46 | the back button hides the form |
| Sidebar.CartSidebar.HandleCheckoutSuccess | components/cart/cart-sidebar.tsx:27-31 | the form is hidden, the cart is empty and the sheet is closed |
| AdminPage.GamePath | app/admin/page.tsx:36 | the URL is the collection path, a slash and the id, and the id can be read back |
| AdminPage.SaveRequest | app/admin/page.tsx:36-37 | `PUT /api/games/{id}` exactly while editing, `POST /api/games` otherwise |
| AdminPage.SaveRequestsDistinct | app/admin/page.tsx:36-37 | edits of different games go to different URLs, none of them the creation URL |
| AdminPage.DeleteRequest | app/admin/page.tsx:67-69 | a delete goes to `DELETE /api/games/{id}` |
| AdminPage.View | app/admin/page.tsx:92-118 | the spinner while loading; after that the form exactly when `showForm`, with the edited game, else the table |
| AdminPage.AdminPanel.constructor | app/admin/page.tsx:11-14 | no games, nothing edited, the table, loading |
| AdminPage.AdminPanel.FetchGames | app/admin/page.tsx:20-32 | an ok response replaces the list, anything else keeps it; loading ends |
| AdminPage.AdminPanel.HandleAdd | app/admin/page.tsx:82-85 | an empty form is shown |
| AdminPage.AdminPanel.HandleEdit | app/admin/page.tsx:60-63 | the form is shown holding the game |
| AdminPage.AdminPanel.HandleCancel | app/admin/page.tsx:87-90 | the form is hidden and nothing is edited |
| AdminPage.AdminPanel.HandleSubmit | app/admin/page.tsx:34-58 | the request goes to the save target; success reloads and closes the form; failure rethrows and changes nothing |
| AdminPage.AdminPanel.HandleDelete | app/admin/page.tsx:65-80 | the request is the delete; success reloads; failure alerts and changes nothing |
| Store.NewAccount | app/api/auth/register/route.ts:28-36 | the stored account has the given email, name and hash, the role "user" and both dates now |
| Store.SessionOf | app/api/auth/register/route.ts:41-46 | the session copies id, email, name and role and has no password |
| Store.FindByEmail | app/api/auth/login/route.ts:19 | the lookup finds a stored user with that email, and finds none exactly when no user has it |
| Store.FindAfterInsert | app/api/auth/register/route.ts:22-38 | inserting does not change an existing match and makes a new email findable |
| Store.UserCollection.InsertOne | app/api/auth/register/route.ts:38 | the user is stored after the existing ones |
| Store.PurchaseCollection.InsertOne | app/api/purchases/route.ts:42 | the purchase is stored after the existing ones |
| Http.AuthCookie | app/api/auth/register/route.ts:56-61 | the `auth-token` cookie is HTTP-only, same-site strict and lives 604800 seconds |
| RegisterRoute.Validate | app/api/auth/register/route.ts:10-16 | a missing or empty field gives "All fields are required"; otherwise a password shorter than 6 gives the length error; otherwise the body passes |
| RegisterRoute.PasswordLengthBoundary | app/api/auth/register/route.ts:14-16 | six characters pass, five fail, an empty password counts as missing |
| RegisterRoute.Register | app/api/auth/register/route.ts:6-63 | checks run in order; a taken email gives 400 and stores nothing; success stores exactly one user with the hash and role "user" and returns its session and cookie |
| LoginRoute.Login | app/api/auth/login/route.ts:6-57 | a missing field gives 400; an unknown email or a wrong password gives 401 "Invalid credentials"; when the stored user found for the email accepts the password, the login succeeds with that user's session and the cookie for its token; any success is for a stored user whose hash the password matches |
| LoginRoute.UnknownEmailLooksLikeWrongPassword | app/api/auth/login/route.ts:19-27 | an unknown email and a wrong password get identical answers |
| LoginRoute.RegisteredUserCanLogIn | app/api/auth/login/route.ts:14-35 | right after registering, the same credentials log in with the session registration returned |
| UsersRoute.ViewOf | app/api/users/route.ts:34-37 | the response holds every stored field but the password |
| UsersRoute.ViewHidesPassword | app/api/users/route.ts:34-37 | two users differing only in their password hash give the same response |
| UsersRoute.CreateUser | app/api/users/route.ts:7-42 | a taken email gives 400 and stores nothing; otherwise one user with role "user" is stored, without any other check, and the password-free view is returned with 201 |
| PurchasesRoute.GetPurchases | app/api/purchases/route.ts:6-25 | no user id gives 400 "User ID required"; otherwise exactly the user's purchases, as a permutation of them, newest first |
| PurchasesRoute.ListingCountsEachPurchase | app/api/purchases/route.ts:18 | each of the user's purchases appears as often as stored, nobody else's appears |
| PurchasesRoute.FilterCount | app/api/purchases/route.ts:18 | filtering keeps every copy of a matching record and none of another |
| PurchasesRoute.NewPurchase | app/api/purchases/route.ts:33-40 | the stored record has status "pending" whatever the body says, and the body's owner, items and total unchanged |
| PurchasesRoute.PostPurchase | app/api/purchases/route.ts:28-49 | exactly one record is appended and echoed with 201 |
| PurchasesRoute.PostedPurchaseIsListed | app/api/purchases/route.ts:6-49 | a posted purchase appears in its owner's listing, first when newer than everything stored |
| Middleware.Guard | middleware.ts:5-20 | paths outside "/admin" pass; an admin path needs a non-empty token that verifies to an admin session, else it redirects home |
| Middleware.GuardLetsThrough | middleware.ts:5-20 | the function lets a request through exactly when its path does not start with "/admin" or it carries a verified admin session |
| Middleware.PrefixExamples | middleware.ts:7 | the function's own test is a plain prefix: `Guard` rejects "/adminx" and "/admin/games" without a token and lets "/" and "/cart" through |
| Middleware.MatcherApplies | middleware.ts:23-25 | `/admin/:path*` selects "/admin" and paths under "/admin/": each passes the "/admin" prefix test and continues with "/" or ends there |
| Middleware.HandleRequest | middleware.ts:5-25 | with the matcher applied, a request goes through exactly when its path is neither "/admin" nor under "/admin/", or it carries a verified admin session |
| Middleware.MatcherWithinPrefix | middleware.ts:7-25 | every path the matcher selects passes the prefix test, so a selected path without a token is redirected; "/adminx" is not selected and goes through although `Guard` alone would reject it |
| Middleware.LoginCookieOpensAdminOnlyForAdmins | middleware.ts:8-20 | the cookie a login sets opens admin pages exactly for a stored admin |

## Left out

- Persistence of the cart in `localStorage` (contexts/cart-context.tsx:29-44) and its JSON parse failure path: these are I/O.
- `...purchaseData` in the purchases route (app/api/purchases/route.ts:35-40) copies every key of the request body into the stored record. A body carrying `_id` or extra fields has them stored as sent. `PurchasesRoute.PurchaseBody` keeps only `userId`, `items`, `totalAmount` and `status`, so those extra keys are not modelled.
- The Next.js matcher syntax is modelled only for the one pattern used, `/admin/:path*`: "/admin" itself or "/admin/" followed by anything. Trailing-slash and URL normalisation done by the framework before matching are not modelled.
- Floating point: prices and ratings are integers, so JavaScript's rounding in `getTotalPrice` and `toFixed` formatting are not captured.
- `toLowerCase` is modelled on ASCII letters only; other Unicode case mappings are not captured.
- `includes` and `length` work on `char` sequences, not on UTF-16 code units.
- `new Date(...)` parsing and ISO conversion: every date is an integer timestamp.
- Concurrency. This covers the race between `findOne` and `insertOne` in registration and user creation, and React's batching of state updates.
- Catalog.FilterGames: the result goes to `setFilteredGames`, and the effect that re-runs it is not modelled; the method returns the list.
- Sequences.SortDesc: `Array.prototype.sort` is stable since ECMAScript 2019, and the contract states it: elements with equal keys keep their order. The same function also stands for MongoDB's sort, whose order among equal keys is unspecified (next line).
- PurchasesRoute.GetPurchases: MongoDB's order among equal `createdAt` is unspecified. The model picks the stable order, and the contract states only a sorted permutation.
- Carousel.GameCarousel: the `games` prop is fixed for the life of the component. A prop that shrinks under a stored index is not modelled. Neither is `handleAddToCart`, which passes the shown game to the cart's `addToCart`.
- The bodies sent by the admin page's saves are the form's data passed through unchanged. The game form that builds them (components/admin/game-form.tsx) is not part of this model.
- Request bodies of the auth and users routes hold strings or nothing. A field of another JSON type (a number, an object) is not modelled. In the users route the three fields are taken to be present strings, so `findOne({ email: undefined })` is not modelled.
- PurchasesRoute.PurchaseBody: `items` and `totalAmount` are always present and well typed. The route validates nothing (app/api/purchases/route.ts:32-40), so a body missing them, or with a string total, is stored and echoed as sent; that case is not modelled.
- The password hash, password comparison, token signer and token verifier of `lib/auth.ts` are parameters. lib/auth.ts itself is not part of this model.
- The token signer is a function of the session alone. `jwt.sign` also stamps the issue time and a seven-day expiry into the token, so a later login gets a different token and a token stops verifying after seven days. Neither the issue time nor the expiry is modelled.
- The `secure` cookie flag depends on the deployment environment and is left out of `Http.Cookie`.
- Responses with status 500 (the `catch` branches of the route handlers) come from database or runtime failures. The model has no such failures.
- The "Loading" screen of the home page and the GET of `/api/games` are not modelled (app/api/games is not part of this model). The same goes for `alert` and `console` output.
- Presentation-only components (game card, game grid, featured games, store header, cart item, layout) are not modelled. The cart item's +/− buttons only call `updateQuantity`, which the cart model covers.

## Findings

| source | as written | input that shows it | evidently intended | confidence | as-written member | corrected member |
|---|---|---|---|---|---|---|
| app/page.tsx:66-68 | `games.sort(...)` sorts the `games` state array in place during render, so after the first render the catalog itself is ordered by release date | catalog [Older Hit (released 1000, rated 9.0), Newer Hit (released 2000, rated 8.5)]: the first render features [Older Hit, Newer Hit], every later render features [Newer Hit, Older Hit], and the carousel's slide order changes with it | new releases computed from a sorted copy, leaving the catalog order alone | not executed | Catalog.RerenderReordersFeatured | Catalog.Render |
