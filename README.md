# DineIn frontend core, modelled in Dafny

DineIn is a restaurant-ordering web frontend with two sides.

On the customer side:
- a visitor browses a restaurant's menu by category;
- they collect items in a cart and see the item count and the total;
- they fill in a checkout form that opens a WhatsApp chat with the restaurant, carrying the order as text.

On the admin side:
- an owner signs up and signs in;
- edits the weekly opening hours in a 24-hour time picker that stores 12-hour strings;
- manages menu items in a paginated dashboard;
- updates their profile.

A route guard decides which admin pages need a session. A request interceptor attaches the session token to API calls.

The model covers the logic of those pieces.
- Pure code (converters, reductions, filters, the message template, validation chains, form construction) becomes datatypes, functions and lemmas.
- The storefront cart is a class whose map field the add and remove handlers update.
- The menu dashboard is a class whose fields (items, pagination, form, edited item, dialog flag) its handlers update.
- The request configuration is a class whose header map the interceptor updates.
- Building the profile-update form is a loop over the given fields, with its invariant.

Prices are integer cents. A JavaScript number in a form field is `Amount`: either `NaN` or cents.

Replies from the server, `localStorage` contents, JSON parsing and `encodeURIComponent` are parameters. "Now" is milliseconds since local midnight.

Modules:

| module | file | what it holds |
|---|---|---|
| `Wrappers` | `wrappers.dfy` | `Option`, `Result` |
| `Text` | `text.dfy` | the JavaScript string built-ins the core relies on (`split`, `trim`, `join`, `String(n)`, `padStart`, `toFixed(2)`) |
| `Seqs` | `seqs.dfy` | `filter` and `Array.from(new Set(...))` |
| `Types` | `types.dfy` | the records of `src/@types`, forms, storage and list queries |
| `Clock` | `clock.dfy` | the shapes `HH:MM` and `HH:MM AM` |
| `Validation` | `validation.dfy` | first-failure validation chains |

The other modules follow the source files one to one.

Three behaviours worth knowing:
- The restaurant listing uses the opening-hours check as written, which reports an overnight window closed after midnight (see Findings). `RestaurantAction.ListingWithCorrectedCheck` states what the corrected check would change.
- Editing a menu item lets the owner pick a category, but the update request never carries one (`MenuDashboard.EditSends`).
- The checkout total counts every listed item, while the message and the summary list only items with a positive quantity. The two agree (`Checkout.OrderTotalOfOrderedItems`).

## Model

| member | source | states |
|---|---|---|
| `Clock.Format24Reads` | src/app/admin/components/HoursPage.tsx:127 | A zero-padded `HH:MM` built from hour ≤ 23 and minute ≤ 59 is a valid 24-hour string that reads back as the same hour and minute. |
| `Clock.Format12Reads` | src/app/admin/components/HoursPage.tsx:136 | A zero-padded `HH:MM AM/PM` reads back as the same face hour, minute and half of the day. |
| `HoursEditor.Hour24` | src/app/admin/components/HoursPage.tsx:124-125 | The 12→24 hour rule gives an hour in 0..23 with the same residue mod 12, and the hour is ≥ 12 exactly for PM (12 AM is 0, 12 PM stays 12). |
| `HoursEditor.Hour12` | src/app/admin/components/HoursPage.tsx:134 | `hours % 12 \|\| 12` is in 1..12 with the same residue mod 12, so 0 becomes 12. |
| `HoursEditor.HourRulesInverse` | src/app/admin/components/HoursPage.tsx:120-137 | The two hour rules are inverse to each other in both directions. |
| `HoursEditor.ConvertTo24Hour` | src/app/admin/components/HoursPage.tsx:120-128 | Output is always a zero-padded `HH:MM` whose hour follows the PM +12 / 12 AM→0 rule and whose minute is the input's. |
| `HoursEditor.ConvertTo12Hour` | src/app/admin/components/HoursPage.tsx:130-137 | Output is a zero-padded `HH:MM AM/PM`. It reads PM exactly for hours 12–23, and its face hour is in 1..12 with the same residue mod 12. |
| `HoursEditor.RoundTrip24` | src/app/admin/components/HoursPage.tsx:120-137 | For every 24-hour time, converting to 12-hour and back gives the zero-padded original. |
| `HoursEditor.RoundTrip12` | src/app/admin/components/HoursPage.tsx:120-137 | For every 12-hour time with a face hour in 1..12, converting to 24-hour and back gives the zero-padded original. |
| `HoursEditor.MidnightAndNoon` | src/app/admin/components/HoursPage.tsx:124-125 | "12:05 AM" becomes "00:05", "12:05 PM" stays "12:05", and "00:05" becomes "12:05 AM". |
| `HoursEditor.HandleHoursChange` | src/app/admin/components/HoursPage.tsx:27-38 | Same length and order. Only the chosen field of rows with the given id changes, to the given value; every other row, and the other field, is untouched. |
| `HoursEditor.EditIsDisplayedAsTyped` | src/app/admin/components/HoursPage.tsx:84-95 | A time picked in the 24-hour input is stored as 12-hour text and shown again in the input exactly as typed. |
| `RestaurantAction.ParseTime` | src/action/restaurant/index.ts:115-123 | `parseTime` gives an hour in 0..23 with the face hour's residue, ≥ 12 exactly for PM, and keeps the minute. |
| `RestaurantAction.ParseTimeAgreesWithEditor` | src/action/restaurant/index.ts:115-123 | `parseTime` applies the same rule as the hours editor's `convertTo24Hour`. |
| `RestaurantAction.MsOfDayReads` | src/action/restaurant/index.ts:125-129 | `createTimeDate`'s instant lies within the day, on a whole minute, and reads back as the hour and minute it was built from. |
| `RestaurantAction.OpenMs` | src/action/restaurant/index.ts:125-134 | Today's opening time is the instant within the day, on a whole minute, whose hour and minute are those `parseTime` reads from the opening time. |
| `RestaurantAction.CloseMs` | src/action/restaurant/index.ts:125-135 | Today's closing time is the instant within the day, on a whole minute, whose hour and minute are those `parseTime` reads from the closing time. |
| `RestaurantAction.CheckIsOpen` | src/action/restaurant/index.ts:110-141 | As written: closed without hours. Same-day window: open iff open ≤ now ≤ close, both ends inclusive. Overnight window: open iff now ≥ open. |
| `RestaurantAction.CheckIsOpenMissesAfterMidnight` | src/action/restaurant/index.ts:137-141 | The as-written check never reports open outside the window, and it misses the window exactly for overnight windows after midnight up to the close. |
| `RestaurantAction.OvernightWindowReportsClosedAfterMidnight` | src/action/restaurant/index.ts:137-141 | A 10 PM–2 AM window checked at 1 AM is inside the window yet reported closed. |
| `RestaurantAction.CheckIsOpenAcrossMidnight` | src/action/restaurant/index.ts:137-141 | Corrected check: closed without hours, otherwise open exactly when now lies in today's window or in yesterday's overnight window. |
| `RestaurantAction.OrDefault` | src/action/restaurant/index.ts:36-43 | `value \|\| fallback`: a non-empty value is kept; a missing or empty one becomes the fallback. |
| `RestaurantAction.NormalizeRestaurant` | src/action/restaurant/index.ts:33-51 | Every string field is `value \|\| fallback`: a present value is kept, and a missing or empty one defaults (name to "Unnamed Restaurant", location to "No location", image to the placeholder, id/email/phone/timestamps to ""), so name, location and image are never empty. Working hours are copied. The open flag is `checkIsOpen` as written: closed without hours, never open outside the window, and (see Findings) closed after midnight inside an overnight window. |
| `RestaurantAction.ListingWithCorrectedCheck` | src/action/restaurant/index.ts:50 | With the corrected check the listing would report open every restaurant it reports open now, plus exactly those after midnight inside an overnight window. |
| `RestaurantAction.RestaurantsRequest` | src/action/restaurant/index.ts:18-24 | The listing asks `GET users` with the search as given; page defaults to 1 and limit to 10 when absent or 0, and are otherwise passed through. |
| `RestaurantAction.FallbackPagination` | src/action/restaurant/index.ts:56-63 | The fallback is page 1 of 1, with total and per-page both the number of restaurants, and no next or previous page. |
| `RestaurantAction.FetchAllRestaurants` | src/action/restaurant/index.ts:26-78 | A failure or an empty body gives an empty list with the zero pagination. Otherwise every item of the array (or of `data`, or none) is normalised in order, with the as-written open flag, and the reply's pagination is used or the fallback. |
| `Types.NumberOr` | src/action/menu/index.ts:43-44 | `n \|\| fallback`: a non-zero number is kept; an absent or zero one becomes the fallback. |
| `Types.RequestQuery` | src/action/menu/index.ts:41-45 | The search passes unchanged. Page defaults to 1 and limit to 10 when absent or 0, and are otherwise passed through. |
| `Types.StoredValue` | src/app/checkout/page.tsx:28-33 | A stored string counts as present exactly when the key exists and the value is non-empty. |
| `ShoppingCart.Added` | src/components/RestaurantPage.tsx:18-23 | `addToCart`: an absent item becomes 1, a present one goes up by 1, and the keys gain only that id. |
| `ShoppingCart.Removed` | src/components/RestaurantPage.tsx:25-35 | `removeFromCart`: a quantity above 1 goes down by exactly 1, otherwise the entry is deleted; no other entry changes. |
| `ShoppingCart.UpdatesKeepPositive` | src/components/RestaurantPage.tsx:18-35 | Both handlers keep every stored quantity ≥ 1. |
| `ShoppingCart.RemoveAbsentIsNoOp` | src/components/RestaurantPage.tsx:26-34 | Removing an item that has no entry leaves the cart unchanged. |
| `ShoppingCart.RemoveUndoesAdd` | src/components/RestaurantPage.tsx:18-35 | `addToCart(x)` followed by `removeFromCart(x)` restores the original cart. |
| `ShoppingCart.Cart.constructor` | src/components/RestaurantPage.tsx:16 | The cart starts empty and valid. |
| `ShoppingCart.Cart.AddToCart` | src/components/RestaurantPage.tsx:18-23 | The new cart is `Added(old cart, id)`, and the ≥ 1 invariant holds. |
| `ShoppingCart.Cart.RemoveFromCart` | src/components/RestaurantPage.tsx:25-35 | The new cart is `Removed(old cart, id)`, and the ≥ 1 invariant holds. |
| `ShoppingCart.CartItems` | src/components/RestaurantPage.tsx:37 | A menu is in `cartItems` exactly when it is listed and has a non-zero quantity. |
| `ShoppingCart.CartItemsInMenuOrder` | src/components/RestaurantPage.tsx:37 | Under the invariant, `cartItems` is exactly the menus with a cart entry, and it keeps menu order (it distributes over concatenation). |
| `CartPanel.TotalItems` | src/components/cart.tsx:21 | `totalItems`, the sum of the cart's quantities; stated by `CartPanel.TotalItemsWithout`, `CartPanel.TotalItemsAfterAdd`, `CartPanel.TotalItemsAfterRemove` and `CartPanel.BadgeShownIffCartNotEmpty`. |
| `CartPanel.TotalItemsWithout` | src/components/cart.tsx:21 | The sum of all quantities is any one entry's quantity plus the sum over the rest. |
| `CartPanel.TotalItemsAfterAdd` | src/components/cart.tsx:21 | Adding an item raises `totalItems` by 1. |
| `CartPanel.TotalItemsAfterRemove` | src/components/cart.tsx:21 | Removing an item in the cart lowers `totalItems` by 1; removing one not in the cart keeps it. |
| `CartPanel.BadgeShownIffCartNotEmpty` | src/components/cart.tsx:40-44 | The count badge (`totalItems > 0`) shows exactly when the cart has an entry. |
| `CartPanel.TotalPrice` | src/components/cart.tsx:22 | `totalPrice`, price times quantity summed over the listed items; stated by `CartPanel.TotalPriceAppend`, `CartPanel.TotalPriceNonNegative` and `Checkout.OrderTotalMatchesPanel`. |
| `CartPanel.TotalPriceNonNegative` | src/components/cart.tsx:22 | With no negative price the panel's total is never negative. |
| `CartPanel.TotalPriceAppend` | src/components/cart.tsx:22 | `totalPrice` over two lists is the sum of their totals (0 for an empty list), given every listed item has a cart entry. |
| `CartPanel.CartItemsAreListed` | src/components/cart.tsx:22 | Every item the restaurant page passes in has a cart entry, so `totalPrice` is defined for it. |
| `CartPanel.EmptyMessageForCartItems` | src/components/cart.tsx:57-58 | The empty-cart message shows exactly when no listed menu has a cart entry. |
| `CartPanel.Rows` | src/components/cart.tsx:61-74 | One row per item, in order, each showing that item's name and its quantity and acting on that item's id. |
| `CartPanel.RowButtonsUndo` | src/components/cart.tsx:65-69 | A row's `+` raises that id's quantity by one, and its `-` after `+` restores the cart. |
| `CartPanel.HandleCheckout` | src/components/cart.tsx:23-30 | Storage gains exactly the cart, the items, the restaurant name and the phone under their keys; other keys are unchanged; the next page is `/checkout`. |
| `Checkout.LoadAsWritten` | src/app/checkout/page.tsx:27-47 | As written: a missing cart or items redirects to "/" (the initial restaurant name is empty), a parse failure to `/menu`, and a page that is shown holds what the stored cart and items parse to. |
| `Checkout.RedirectIgnoresStoredRestaurant` | src/app/checkout/page.tsx:33-36 | With a restaurant name in storage but no cart, the as-written page still goes to "/". |
| `Checkout.Load` | src/app/checkout/page.tsx:27-47 | Corrected: a missing hand-off redirects to the stored restaurant's page; otherwise it behaves as written. |
| `Checkout.HandOffArrives` | src/app/checkout/page.tsx:27-47 | What the cart panel stores is exactly what the checkout page shows, if JSON reads back what was written. |
| `Checkout.OrderTotalMatchesPanel` | src/app/checkout/page.tsx:50-54 | When every item has a cart entry, the checkout total equals the cart panel's total. |
| `Checkout.OrderTotalOfOrderedItems` | src/app/checkout/page.tsx:50-54 | Items with no positive quantity add nothing: the total over the ordered items equals the total over all items. |
| `Checkout.OrderTotal` | src/app/checkout/page.tsx:50-54 | `totalPrice`: price times `cart[id] \|\| 0` summed over all items; its properties are stated by `Checkout.OrderTotalBounds`, `Checkout.OrderTotalMatchesPanel` and `Checkout.OrderTotalOfOrderedItems`. |
| `Checkout.OrderTotalBounds` | src/app/checkout/page.tsx:50-54 | The total is 0 when no item has a quantity, and never negative when no price is. |
| `Checkout.OrderLines` | src/app/checkout/page.tsx:58-62 | One line per ordered item, each `name xQ - $subtotal`. |
| `Checkout.OrderDetails` | src/app/checkout/page.tsx:58-63 | The details are empty exactly when no item has a positive quantity; `Checkout.OrderDetailsReadBack` states that they read back as the order lines. |
| `Checkout.OrderDetailsReadBack` | src/app/checkout/page.tsx:58-63 | Splitting the joined order details at line breaks gives back exactly the order lines, in item order, when names have no line break. |
| `Checkout.Message` | src/app/checkout/page.tsx:65-80 | The template with its leading break and closing indentation, then `trim`; what that leaves is stated by `Checkout.MessageText`. |
| `Checkout.MessageText` | src/app/checkout/page.tsx:65-80 | `trim` removes only the template's leading break and trailing indentation. The message is the head (restaurant, customer name, address, phone, order, total, "Additional Notes:") followed by the notes without their trailing whitespace when the notes hold any visible character, or the head without its last break when the notes are blank. |
| `Checkout.HandleSubmit` | src/app/checkout/page.tsx:86-104 | Alerts, changing nothing, exactly when name, address or phone is empty. Otherwise it opens `https://wa.me/<phone>?text=<encoded message>` and removes exactly the cart and the items from storage. |
| `Checkout.ReturnAfterOrder` | src/app/checkout/page.tsx:102-103 | After an order is sent, reloading checkout redirects: as written to "/", and with the corrected load back to the restaurant's page. |
| `Checkout.Render` | src/app/checkout/page.tsx:107-174 | Nothing is rendered exactly when the item list is empty. Otherwise the summary has one row per ordered item, and its total is the checkout total. |
| `Checkout.SummaryMatchesMessage` | src/app/checkout/page.tsx:163-170 | Summary row i reads as order-message line i: same filter, name, quantity and amount. |
| `MenuSection.CategoryNames` | src/components/menu-section.tsx:16 | The category name of each menu, in order. |
| `MenuSection.Categories` | src/components/menu-section.tsx:16 | `Array.from(new Set(...))` of the category names; stated by `MenuSection.CategoriesListEachNameOnce`. |
| `MenuSection.CategoriesListEachNameOnce` | src/components/menu-section.tsx:16 | `categories` holds each menu's category name exactly once, nothing else, in first-occurrence order. |
| `MenuSection.FilteredMenus` | src/components/menu-section.tsx:18-20 | No selection: all menus. A selection: exactly the menus of that category. |
| `MenuSection.FilteredMenusInOrder` | src/components/menu-section.tsx:18-20 | Filtering keeps the menus' order: the shown menus of a list made of two parts are those of the first part followed by those of the second. |
| `MenuSection.CategoryButtonsCoverMenus` | src/components/menu-section.tsx:16-20 | Each (non-empty) category button shows at least one menu, and each menu appears under its own category. |
| `MenuSection.Highlighted` | src/components/menu-section.tsx:34-44 | "All" is highlighted iff nothing is selected, and a category button iff it is the selection. |
| `MenuSection.OneButtonHighlighted` | src/components/menu-section.tsx:34-44 | Exactly one button is highlighted. |
| `MenuSection.Tiles` | src/components/menu-section.tsx:54-58 | One card per shown menu, showing its cart quantity or 0 without an entry. |
| `MenuSection.TileButtons` | src/components/menu-section.tsx:58-60 | A card's `+` raises its quantity by 1 and its `-` lowers a positive one by 1, leaving other menus' cards as they were. |
| `RouteGuard.Decide` | src/middleware.ts:15-39 | A redirect only ever goes to `/admin/login` or `/admin/dashboard`. |
| `RouteGuard.DashboardNeedsSession` | src/middleware.ts:16-22 | Dashboard paths redirect to the login when signed out and pass when signed in. |
| `RouteGuard.AuthPagesOnlyWhenSignedOut` | src/middleware.ts:24-30 | Login and signup paths redirect to the dashboard when signed in and pass when signed out. |
| `RouteGuard.OtherAdminPagesNeedSession` | src/middleware.ts:32-35 | Any other `/admin` path redirects to the login when signed out and passes when signed in. |
| `RouteGuard.PublicPathsPass` | src/middleware.ts:15 | A path not under `/admin` is never redirected. |
| `RouteGuard.NoRedirectLoop` | src/middleware.ts:15-36 | A redirect target passes under the same session state. |
| `Validation.FirstFailure` | src/app/admin/login/page.tsx:21-38 | A chain reports no error exactly when every check passes. |
| `Validation.FirstFailureAt` | src/app/admin/signup/page.tsx:25-50 | When check i fails and all before it pass, check i's message is reported. |
| `LoginPage.LooksLikeEmailIffPattern` | src/app/admin/login/page.tsx:26 | The email test holds iff, somewhere in the string, a non-space run, "@", a non-space run, "." and a non-space run follow each other (the pattern is unanchored). |
| `LoginPage.LooksLikeEmailIsMatch` | src/app/admin/login/page.tsx:26 | The email test implies a pattern match. |
| `LoginPage.MatchLooksLikeEmail` | src/app/admin/login/page.tsx:26 | A pattern match implies the email test. |
| `LoginPage.EmailExamples` | src/app/admin/login/page.tsx:26 | "chef@dine.in" and "see: a@b.c!" pass; "a@b" fails. |
| `LoginPage.ValidateLogin` | src/app/admin/login/page.tsx:21-39 | `validateForm`: the first failing check's message; stated by `LoginPage.ValidateLoginOutcomes`. |
| `LoginPage.ValidateLoginOutcomes` | src/app/admin/login/page.tsx:21-39 | Checks run in order (empty email, malformed email, empty password, shorter than 8), and the first failure's message is reported. The form is valid iff the email passes the pattern and the password is at least 8 UTF-16 code units long, as `password.length` counts. |
| `Text.Utf16Length` | src/app/admin/login/page.tsx:34 | `password.length` counts UTF-16 code units: between the number of characters and twice that, and exactly the number of characters when none lies outside the Basic Multilingual Plane. |
| `Text.AstralCountsTwice` | src/app/admin/login/page.tsx:34 | A string of four emoji has length 8. |
| `LoginPage.FourEmojiPasswordAccepted` | src/app/admin/login/page.tsx:34 | A password of four emoji passes the length check. |
| `LoginPage.SignInErrorMessage` | src/app/admin/login/page.tsx:56-62 | "CredentialsSignin" and "UserNotFound" map to their own messages, any other code to the generic one. |
| `LoginPage.HandleLogin` | src/app/admin/login/page.tsx:41-71 | Sign-in is attempted exactly when validation passes. Without an error it goes to the dashboard; an error shows its mapped message; a thrown call shows the network message. |
| `AuthAction.SignupGuard` | src/action/auth/index.ts:9-14 | The six presence checks of `signup`, first failure reported; stated by `AuthAction.SignupGuardOutcomes`. |
| `AuthAction.SignupGuardOutcomes` | src/action/auth/index.ts:9-14 | Name, location, email, phone, password and file are checked in that order, and the first missing one's message is thrown. It passes iff all six are present. |
| `AuthAction.Signup` | src/action/auth/index.ts:7-35 | Nothing is built when a guard fails. Otherwise the form has exactly six entries (name, location, email, phoneNumber, password, file) holding the given values. |
| `SignupPage.SignUpData` | src/app/admin/signup/page.tsx:64-71 | Every text field submitted is the trimmed input, and the image is passed on. |
| `SignupPage.PageChecksAreActionChecks` | src/app/admin/signup/page.tsx:25-51 | The page's checks on the raw fields are the action's checks on the trimmed DTO, with the same messages in the same order. |
| `SignupPage.ValidateSignup` | src/app/admin/signup/page.tsx:25-51 | `validateForm`: the first failing check's message; stated by `SignupPage.PageChecksAreActionChecks` and `SignupPage.ValidateSignupOutcomes`. |
| `SignupPage.ValidateSignupOutcomes` | src/app/admin/signup/page.tsx:25-51 | The page is valid iff all six checks pass, and then the action's guard passes too. A whitespace-only name or password counts as missing, and the first failure's message is reported. |
| `SignupPage.SignupErrorMessage` | src/app/admin/signup/page.tsx:77-80 | The server message is preferred, then the exception message, then the default text; the result is never empty. |
| `SignupPage.HandleSignup` | src/app/admin/signup/page.tsx:53-84 | Signup is attempted exactly when validation passes. Success goes to the login page; a failure shows `SignupErrorMessage`. |
| `MenuAction.PriceText` | src/action/menu/index.ts:65 | `price.toString()` is "NaN" exactly for `NaN`. |
| `MenuAction.UserMenusRequest` | src/action/menu/index.ts:40-45 | The path is `menu/user/` plus the session id (or "undefined"), and the query gets the page/limit defaults. |
| `MenuAction.FetchMenuItemsByUser` | src/action/menu/index.ts:48-55 | The reply's `data` and `pagination` are returned unchanged, and a failure is rethrown. |
| `MenuAction.CreateMenuItemForm` | src/action/menu/index.ts:63-68 | Always five entries, in the order name, price as text, measure, file, category, holding the given values. |
| `MenuAction.UpdateMenuItemForm` | src/action/menu/index.ts:86-91 | The form is the sequence of sent fields in the fixed order name, price, description, measure, file. |
| `MenuAction.UpdateEntries` | src/action/menu/index.ts:87-91 | The conditional appends of `updateMenuItem`; stated by `MenuAction.UpdateEntriesSendExactly`. |
| `MenuAction.UpdateEntriesSendExactly` | src/action/menu/index.ts:87-91 | Every entry is a sent field carrying its value, and every sent field in the key list has an entry. |
| `MenuAction.UpdateMenuItemSends` | src/action/menu/index.ts:83-91 | A key is sent iff the rule allows it: name, description and measure when non-empty, price whenever defined (0 included), file when given. Never a category. |
| `UserAction.NonNullEntries` | src/action/user/index.ts:40-44 | The `forEach` keeping defined values; stated by `UserAction.NonNullEntriesAppend` and `UserAction.NonNullEntriesExactly`. |
| `UserAction.NonNullEntriesAppend` | src/action/user/index.ts:40-44 | Keeping defined entries distributes over concatenation, so entry order is kept. |
| `UserAction.NonNullEntriesExactly` | src/action/user/index.ts:40-44 | An entry is appended exactly for each field whose value is defined, with that value; undefined and null ones are omitted. |
| `UserAction.UpdateUserProfile` | src/action/user/index.ts:28-55 | Fails with "User not authenticated" exactly when there is no session id. Otherwise it puts to `users/<id>` the defined fields in order, followed by the file only when one is given. |
| `UserAction.ToUser` | src/action/user/index.ts:58-65 | The reply's `_id` becomes `id`, and the other five fields are copied. |
| `ApiClient.WithAuthorization` | src/utils/axiosInstance.ts:22-27 | A URL ending in `/login` or `/signup`, or no token, leaves the headers unchanged. Otherwise `Authorization` becomes `Bearer <token>`, and no other header changes. |
| `ApiClient.WithAuthorizationIdempotent` | src/utils/axiosInstance.ts:22-24 | Applying the interceptor twice is the same as once. |
| `ApiClient.AuthEndpointsKeepHeaders` | src/utils/axiosInstance.ts:22 | Login and signup requests never get an Authorization header. |
| `ApiClient.RequestConfig.ApplyAuthorization` | src/utils/axiosInstance.ts:21-27 | The config keeps its URL, and its headers become `WithAuthorization` of the old headers. |
| `MenuDashboard.CanAdd` | src/app/admin/components/MenuPage.tsx:123 | The add gate: name, non-zero price, category and image; stated by `MenuDashboard.GatesAgree`. |
| `MenuDashboard.CanEdit` | src/app/admin/components/MenuPage.tsx:168 | The edit gate: name, non-zero price and category; stated by `MenuDashboard.GatesAgree` and `MenuDashboard.UntouchedEdit`. |
| `MenuDashboard.GatesAgree` | src/app/admin/components/MenuPage.tsx:123-171 | Add requires what edit requires plus an image, and a price of 0 or NaN passes neither. |
| `MenuDashboard.NewItemData` | src/app/admin/components/MenuPage.tsx:131-137 | The created item carries the form's name, price, measure, category and image. |
| `MenuDashboard.EditUpdate` | src/app/admin/components/MenuPage.tsx:176-193 | The update carries name, price and measure, and the image only when a new one was chosen. |
| `MenuDashboard.EditSends` | src/app/admin/components/MenuPage.tsx:176-193 | An accepted edit always sends name and price, sends the file iff a new image was chosen, and never sends the category. |
| `MenuDashboard.EditForm` | src/app/admin/components/MenuPage.tsx:287-297 | Starting an edit copies name, price, measure and category id, and clears the image. |
| `MenuDashboard.UntouchedEdit` | src/app/admin/components/MenuPage.tsx:166-193 | Saving an edit unchanged sends no image. It passes the gate iff the item has a name, a non-zero price and a category. |
| `MenuDashboard.PageQuery` | src/app/admin/components/MenuPage.tsx:106-110 | The page request with the current search and limit 10; stated by `MenuDashboard.PageQuerySent`. |
| `MenuDashboard.PageQuerySent` | src/app/admin/components/MenuPage.tsx:106-110 | The menu listing's `page \|\| 1` and `limit \|\| 10` defaults leave the dashboard's query unchanged, except that page 0 becomes 1. |
| `MenuDashboard.PreviousPageRequest` | src/app/admin/components/MenuPage.tsx:549-553 | "Previous" asks for currentPage − 1 exactly when there is a previous page. |
| `MenuDashboard.NextPageRequest` | src/app/admin/components/MenuPage.tsx:580-584 | "Next" asks for currentPage + 1 exactly when there is a next page. |
| `MenuDashboard.PageLinks` | src/app/admin/components/MenuPage.tsx:560-572 | The links are numbered 1..totalPages, and a link is active iff it is the current page. |
| `MenuDashboard.OneActiveLink` | src/app/admin/components/MenuPage.tsx:560-568 | Exactly one link is active when the current page is in 1..totalPages, none otherwise. |
| `MenuDashboard.Dashboard.constructor` | src/app/admin/components/MenuPage.tsx:44-64 | Starts with the given items, pagination and search, no edited item, the empty form and a closed dialog. |
| `MenuDashboard.Dashboard.StartEdit` | src/app/admin/components/MenuPage.tsx:287-297 | Remembers the item, fills the form from it and opens the dialog; the list is unchanged. |
| `MenuDashboard.Dashboard.SetDialogOpen` | src/app/admin/components/MenuPage.tsx:360-371 | Sets the dialog flag. Closing also clears the edited item and resets the form to empty with price 0. |
| `MenuDashboard.Dashboard.ShowPage` | src/app/admin/components/MenuPage.tsx:112-113 | Items and pagination become the fetched page's; search, edited item, form and dialog are unchanged. |
| `MenuDashboard.Dashboard.ChangePage` | src/app/admin/components/MenuPage.tsx:102-120 | Requests the page with the current search and limit 10. Success replaces items and pagination; failure changes nothing and shows the error toast "Failed to load page. Please try again.". |
| `MenuDashboard.Dashboard.AddItem` | src/app/admin/components/MenuPage.tsx:122-163 | Sends nothing unless the add gate passes. Otherwise sends the form's item, then reloads the current page. After both succeed: the page is shown, the form resets, the dialog closes, and "Menu Item Added Successfully" is shown. A failed gate shows "All fields are required"; a failed create or reload shows "Failed to add menu item. Please try again.". Any failure leaves the state as it was. |
| `MenuDashboard.Dashboard.EditItem` | src/app/admin/components/MenuPage.tsx:165-221 | Does nothing without an edited item, and sends nothing unless the edit gate passes. Otherwise sends the update for the item's id, then reloads the current page. After both succeed: the form resets, the edited item is cleared, the dialog closes, and "Menu Item Updated Successfully" is shown. A failed gate shows "All fields are required"; a failed update or reload shows "Failed to update Menu. Please try again." and leaves the state as it was. |

## Left out

- Network, `localStorage`, `router.push`, `window.open`, toasts and `alert` are I/O. The model keeps only the values handed to them, with replies and stored strings as parameters.
- Prices are integer cents rather than floating-point numbers. `toFixed(2)` is exact on cents, `parseFloat` is not modelled (the form holds an `Amount`), and `price.toString()` is written as a decimal of the cents.
- `encodeURIComponent` and `JSON.stringify`/`JSON.parse` are function parameters of the submit, hand-off and load functions. Percent-encoding and JSON are library code.
- `Date`, time zones and daylight saving in `checkIsOpen` are out of scope. "Now" is milliseconds since local midnight, and the next-day rollover adds one day.
- `RestaurantAction.FetchAllRestaurants`: requires well-formed opening-hours strings, so two failure paths are not modelled. When `todayWorkingHours` is present but its opening or closing time is missing or not a string, `split` throws, and the catch empties the whole listing rather than reporting one restaurant closed. Only a string such as "ab:cd" reaches `Number`, gives `NaN` and a closed flag. The `Clock` parsers' inputs outside `HH:MM` / `HH:MM AM|PM` are not modelled either.
- `HoursEditor.RoundTrip12`: needs a face hour in 1..12. The converter maps a face hour of 0 to 12 on the way back.
- `CartPanel.TotalItems`: ghost, because summing a map's values picks keys in no fixed order. `totalItems` is stated through the add/remove lemmas and the badge lemma.
- `CartPanel.TotalPrice`: requires every listed item to have a cart entry. Without one the source's sum is `NaN`, which is not modelled.
- The login `errorMap` is a plain object, so a code such as "toString" would read an inherited value. Only own keys are modelled.
- `MenuDashboard.Dashboard.AddItem` and `MenuDashboard.Dashboard.EditItem`: `created`/`updated` and `reload` stand for the two awaited calls. The loading flags are not modelled.
- Debounced search and racing fetches in the dashboard are timing and concurrency. Deleting and toggling menu items are not part of this model.
- The NextAuth callbacks in `src/auth.ts` and the 401 sign-out in the response interceptor are not part of this model. Neither are the thin hours, category and statistics actions, or the presentational components.

## Findings

| source | as written | input that shows it | evidently intended | confidence | as-written member | corrected member |
|---|---|---|---|---|---|---|
| src/action/restaurant/index.ts:137-141 | An overnight window moves today's close to tomorrow, so after midnight `now` is before today's opening and the restaurant reports closed. | Hours "10:00 PM"–"02:00 AM" at 1:00 AM | Open from the opening until midnight and from midnight until the close | high; not executed | `RestaurantAction.OvernightWindowReportsClosedAfterMidnight` | `RestaurantAction.CheckIsOpenAcrossMidnight` |
| src/app/checkout/page.tsx:33-36 | With no stored cart, the redirect uses the `restaurantName` state, which is still "" at mount, so it always goes to "/". | Storage holding only `restaurantName` = "pizza-palace" | Return to the stored restaurant's page, "/pizza-palace" | medium; not executed | `Checkout.RedirectIgnoresStoredRestaurant` | `Checkout.Load` |
