# Restaurant app session cart and checkout, in Dafny

This project models the stateful core of the restaurant web application in `app.py`. That core is the shopping cart kept in the user's session and its conversion into orders. It also covers two small pure helpers that interpret user input: the image-upload extension check and the review-rating clamp.

The session's `cart["restaurants"]` is a Python dict. It maps each restaurant id to the ordered list of lines chosen from that restaurant's menu. Each line has the fields `id, name, price, quantity, restaurant_name`. Within one request a dict keeps insertion order, and `checkout` iterates it in that order. So the model stores the dict as a sequence of `Group`s whose restaurant ids are pairwise distinct (`Cart.GroupSeq`). `Cart.Lines(c, rid)` gives the map view: the lines under a key, or the empty list when the key is absent. Contracts are stated through `Cart.Lines`.

Every route is a pure function. The cart routes `add_to_cart`, `update_cart_quantity` and `remove_from_cart` take the cart that `_init_cart` produced and return the cart that the session holds afterwards. `clear_cart` never runs `_init_cart`, so `Cart.ClearCart` takes the raw session value. `checkout` and the POST branch of `payment` return a `CheckoutResult`, which carries the orders made and any refusal along with the new cart.

| module | file | models |
|---|---|---|
| `Wrappers` | `wrappers.dfy` | `Option` and `Result` |
| `FormInput` | `form_input.dfy` | The integer form fields: the cart quantity (default 1, clamped to [1, 50]) and the review rating (default 5, clamped to [1, 5]) |
| `Cart` | `cart.dfy` | The cart data, its lookups and invariants, dict assignment, `_init_cart`, `clear_cart` and `_cart_total` |
| `CartOps` | `cart_ops.dfy` | `add_to_cart`, `update_cart_quantity` and `remove_from_cart` |
| `Orders` | `orders.dfy` | The per-restaurant materialisation in `checkout` and in the POST branch of `payment` |
| `Uploads` | `uploads.dfy` | `allowed_file` and `ALLOWED_EXTENSIONS` |

Three invariants are proved to be preserved by every cart operation (`Cart.Valid`):
- no restaurant key maps to an empty list;
- every quantity is at least 1;
- a group holds at most one line per menu item.

"Quantity ≤ 50" is not one of them. `update_cart_quantity` clamps to 50, but `add_to_cart` increments with no cap (app.py:301). `CartOps.AddExceedsQuantityCap` exhibits a line reaching 51.

Two behaviours of the code are easy to misread:
- **`update_cart_quantity`.** The `break` (app.py:329) leaves only the inner loop. So the first matching line in **every** restaurant group is updated, not only the one in the first group found (`CartOps.UpdateReachesEveryGroup`).
- **Refusal conditions.** `checkout` refuses a cart with no groups (app.py:356). `payment` refuses a cart whose total is 0 (app.py:438). A cart holding only zero-priced lines is therefore accepted by one route and refused by the other (`Orders.ZeroPricedCartSplitsRoutes`). Whenever the total is not 0, the two routes produce the same orders (`Orders.PaymentAgreesWithCheckout`).

## Model

| member | source | states |
|---|---|---|
| FormInput.Clamp | app.py:322 | The result lies in [lo, hi]. It equals x when x is in range, and the nearer bound otherwise. |
| FormInput.QuantityInput | app.py:318-322 | The stored quantity is always in [1, 50]. It is 1 when the field is missing or does not parse, the parsed value when that is in range, and 1 or 50 below or above the range. |
| FormInput.QuantityInputIdempotent | app.py:322 | Clamping an already clamped quantity changes nothing. |
| FormInput.ReviewRating | app.py:392-396 | The rating is always in [1, 5]. It is 5 when the field is missing or does not parse, the parsed value when that is in range, and 1 or 5 below or above the range. |
| Cart.GroupIndex | app.py:296 | The key lookup finds the first group with the key and nothing before it. It finds none exactly when no group has the key. |
| Cart.LineIndex | app.py:299-300 | The scan finds the first line with the menu id and nothing before it. It finds none exactly when no line has the id. |
| Cart.CountIdZeroIff | app.py:299-303 | A group has no line for an item exactly when the scan for that item finds nothing. |
| Cart.LinesAt | app.py:281 | Under unique keys, each group found by iteration is the group found by key lookup, with the same lines. |
| Cart.LinesInAppend | app.py:296-297 | Inserting a new key at the end gives it its lines and changes no other key's lines. |
| Cart.SameRidsSameIndex | app.py:296 | Key lookup depends only on the sequence of keys. |
| Cart.LinesOfReplaced | app.py:337 | Assigning new lines to an existing key keeps the keys distinct and changes only that key's lines. |
| Cart.SetLines | app.py:296-297 | After `restaurants[rid] = ls` the key holds ls and every other key's lines are unchanged. An existing key keeps its place; a new key is appended. |
| Cart.LinesValid | app.py:296-311 | In a valid cart, the lines under any key are positive and hold at most one line per item. |
| Cart.SetLinesValid | app.py:296-311 | Storing a non-empty, positive, duplicate-free list under a key keeps the cart valid. |
| Cart.InitCartLaws | app.py:272-276 | A missing cart, or one missing its `restaurants` entry, becomes a valid cart with no keys. An existing cart is left untouched. Initialising twice equals initialising once. |
| Cart.ClearCartLaws | app.py:345-349 | Clearing yields a valid cart with no keys, whatever the session held. Clearing is idempotent. |
| Cart.InitCart | app.py:272-276 | A stored cart is kept as it is. A missing cart, or one missing its `restaurants` entry, becomes a cart with no restaurant keys. |
| Cart.ClearCart | app.py:345-349 | Whatever the session held, the result has no restaurant keys and no lines under any key. |
| Cart.LinesTotal | app.py:282 | The sum of price × quantity over a group's lines is never negative when no price or quantity is negative. |
| Cart.GroupsTotal | app.py:280-282 | The group-by-group total is never negative when no line has a negative price or quantity. |
| Cart.CartTotal | app.py:278-283 | The cart total equals price × quantity summed over every line of every group. It is 0 for a cart with no groups. |
| Cart.LinesTotalAppend | app.py:282 | The sum of price × quantity is additive over concatenated line lists. |
| Cart.CartTotalIsSumOverAllLines | app.py:278-283 | The group-by-group total equals the sum of price × quantity over every line of the cart. It is 0 for a cart with no groups. |
| Cart.ComputeCartTotal | app.py:278-283 | The nested loop over groups and lines returns the sum of price × quantity over all lines of the cart. |
| Cart.ComputeGroupTotal | app.py:282 | The inner sum, added line by line, returns the group's price × quantity total. |
| CartOps.AddLine | app.py:299-311 | In the item's group, the item's quantity rises by exactly 1 with no cap. An existing line is bumped in place and no duplicate is created. Otherwise one line with quantity 1 is appended. All other lines are unchanged. Unique ids and positive quantities are preserved. |
| CartOps.BumpedLine | app.py:299-303 | Bumping the first line for the item keeps it first, keeps the number of lines for the item and keeps ids unique. |
| CartOps.AppendedLine | app.py:305-311 | An appended line for an item the group lacked becomes its only line. |
| CartOps.CountIdUpdate | app.py:301 | Rewriting a line in place under the same id leaves every item's line count unchanged. |
| CartOps.AddItem | app.py:295-311 | The item's restaurant key exists afterwards; it is created at the end of the dict if it was new. Its lines are the result of the group step. Every other restaurant's lines are unchanged. |
| CartOps.AddToCart | app.py:293-294 | The request fails with NotFound exactly when the menu id is unknown. A known item is added to its restaurant's group. |
| CartOps.AddPreservesValid | app.py:296-311 | Adding keeps the cart invariants. |
| CartOps.AddRepeatedly | app.py:291-313 | n requests for an unknown item leave the cart unchanged. n requests for a known item raise its quantity by exactly n and never create a second line for it. |
| CartOps.AddExceedsQuantityCap | app.py:301 | Adding to a line holding 50 gives 51, so the add path is uncapped. |
| CartOps.SetFirstQuantity | app.py:325-329 | The line count is unchanged. The first line for the item keeps its id, name, price and restaurant name and gets the new quantity. The scan then stops, so every other line is unchanged. A group without the item is left as it is. |
| CartOps.UpdateCartQuantity | app.py:315-330 | Keys, their order and line counts are unchanged. In every group, the first line for the item gets the clamped quantity and every other line is unchanged. |
| CartOps.UpdateStoresClampedQuantity | app.py:318-327 | In every group holding the item, the item's quantity becomes the clamped input, which lies in [1, 50]. |
| CartOps.UpdateAbsentIsNoop | app.py:324-329 | Updating an item that no group holds leaves the cart unchanged. |
| CartOps.UpdatePreservesValid | app.py:322-327 | Updating keeps the cart invariants. |
| CartOps.UpdateReachesEveryGroup | app.py:324-329 | An item held under two restaurants has both lines updated. |
| CartOps.WithoutId | app.py:337 | The filtered list holds no line for the item. It is shorter by exactly the number of lines for the item. |
| CartOps.WithoutIdMembers | app.py:337 | A line survives the filter exactly when it was present and is for another item. |
| CartOps.WithoutIdAppend | app.py:337 | Filtering distributes over concatenation, so kept lines keep their relative order. |
| CartOps.WithoutAbsentId | app.py:337 | Filtering out an item that the group does not hold leaves the group as it is. |
| CartOps.WithoutIdKeepsUnique | app.py:337 | Filtering keeps menu ids unique within a group. |
| CartOps.KeysFromPrefix | app.py:336-341 | Groups whose keys come from earlier groups cannot share a later group's key. |
| CartOps.RemoveGroups | app.py:336-341 | After the loop and the pops, no group is empty and every key is one the cart had. |
| CartOps.RemoveGroupsLines | app.py:336-341 | Each key's lines after the loop are exactly its filtered lines from before. |
| CartOps.RemoveGroupsOrder | app.py:336-341 | The surviving keys keep their relative order. |
| CartOps.RemoveFromCart | app.py:332-343 | No line for the item remains. Every key holds its filtered lines, and a key survives exactly when its filtered lines are non-empty. No group is empty. The remaining keys keep their order. |
| CartOps.RemovePreservesValid | app.py:337-341 | Removing keeps the cart invariants. |
| CartOps.RemoveAbsentKeepsLines | app.py:332-343 | Removing an item that no group holds leaves every restaurant's lines as they were. |
| CartOps.RemoveGroupsAbsent | app.py:336-341 | When no group is empty and none holds the item, the filter-and-pop loop returns the groups unchanged. |
| CartOps.RemoveAbsentIsNoop | app.py:332-343 | On a cart without empty groups, removing an item it does not hold leaves the cart equal to the input: same keys, same order, same lines. |
| CartOps.RemoveLastLineDropsGroup | app.py:338-341 | Removing a restaurant's only line deletes that restaurant's key and leaves the other restaurant's lines alone. |
| Orders.ItemsOf | app.py:371-377 | There is one item row per cart line, copying its menu id, quantity and price. |
| Orders.ItemsTotalOfLines | app.py:361-377 | An order's item rows add up, price × quantity, to the group total stored as the order's `total_price`. |
| Orders.OrderFor | app.py:361-377 | The order is pending and belongs to the customer and the group's restaurant. It has one item per line, copying id, quantity and price. Its total equals both the group's sum and the sum over its own items. |
| Orders.Materialise | app.py:360-378 | There is one order per group, in dict order. Each order has the customer, the group's restaurant, status `pending` and the group's price × quantity sum. Each has one item per line copying id, quantity and price. |
| Orders.MaterialiseConserves | app.py:360-378 | The order totals add up to the cart's group totals. The item rows number exactly the cart's lines. |
| Orders.PlaceOrders | app.py:360-381 | There is no refusal. Exactly one order is made per group, built from that group, in dict order, and the cart ends empty. |
| Orders.Checkout | app.py:351-383 | A cart with no groups is refused: the cart is unchanged and no orders are made. Otherwise there is exactly one order per group, built from that group, and the cart ends empty. |
| Orders.CheckoutConservesTotal | app.py:351-380 | For every cart, the orders of a checkout add up to the cart total. A refused checkout makes no orders, and its cart has no groups, so its total is 0. |
| Orders.CheckoutOrdersNonEmpty | app.py:371-377 | From a valid cart, every order has at least one item and every item has a quantity of at least 1. |
| Orders.Payment | app.py:436-467 | A cart whose total is 0 is refused and left unchanged. Otherwise the orders are exactly those of `checkout`, and the cart ends empty. |
| Orders.PaymentAgreesWithCheckout | app.py:436-467 | Whenever the total is not 0, payment and checkout give identical results. |
| Orders.ZeroPricedCartSplitsRoutes | app.py:437-440 | A cart holding only a zero-priced line is accepted by checkout and refused by payment, which leaves the cart as it was. |
| Orders.TwoRestaurantCheckout | app.py:351-383 | Two restaurant groups give two pending orders with totals 20 and 5, one item each, and an empty cart. |
| Uploads.LowerChar | app.py:34 | ASCII upper-case letters map to their lower-case letters, and every other character is unchanged. |
| Uploads.Lower | app.py:34 | Lower-casing keeps the length and lower-cases character by character. |
| Uploads.LastDot | app.py:34 | The position found holds a dot and no dot follows it. None is returned exactly when the name has no dot. |
| Uploads.Extension | app.py:34 | There is no extension exactly when the name has no dot. Otherwise the extension holds no dot, and the name is some stem, a dot and the extension. |
| Uploads.AllowedFile | app.py:33-34 | A name without a dot is refused. An accepted name is some stem, a dot and a dot-free extension whose lower-cased form is an allowed extension. |
| Uploads.ExtensionOfJoin | app.py:34 | The extension of stem + "." + ext is ext whenever ext holds no dot. |
| Uploads.AllowedFileIff | app.py:23-34 | A name without a dot is refused. A name is accepted exactly when it is stem + "." + ext, ext holds no dot and lower-cased ext is one of png, jpg, jpeg, gif, webp. |
| Uploads.UpperCaseExtensionAllowed | app.py:34 | "Photo.JPG" is accepted: case does not matter. |
| Uploads.OnlyLastExtensionCounts | app.py:34 | "archive.png.zip" is refused: only the text after the last dot counts. |

## Left out

- HTTP and UI: Flask routing, redirects, `flash` messages, `render_template`, the `cart` page and the GET branch of `payment`, which only renders the total. These produce no state the model needs.
- Persistence: SQLAlchemy and the two commits per order. The orders a request creates are returned as a sequence, each order carrying its item rows. Order ids are not modelled.
- Identity: `login_required`, `current_user`, `owner_required`, `register`, `login` and password hashing. These are identity and database lookups or foreign library calls. The customer id is a parameter.
- Menu lookup: it is a partial map from menu id to the item's name, price, restaurant id and restaurant name. Its absence stands for the 404 raised by `get_or_404`.
- Uploads: saving an uploaded file, `secure_filename` and the 5 MB request limit. These are filesystem I/O and foreign code. Only the extension check is modelled.
- Other routes: restaurant and menu CRUD, the reviews listing and `my_restaurants`. They are plain database reads and writes.
- `add_review`: beyond its rating clamp, the stripping of `content` and the empty-content refusal are not modelled.
- Other files: `static/script.js` is a DOM-bound search filter. `clear_data.py` is a one-off database deletion script.
- Prices: the source stores prices as floats. The model uses integer cents, so float rounding in totals is not modelled.
- Form parsing: Python's `int(...)` on form text is a foreign built-in. A field arrives as `Some(n)` when it parses to n, and as `None` when it is missing or fails to parse.
- Restaurant keys: the session stores them as stringified integers. The model keeps them as integers, so the string round trip is not modelled.
- Session serialisation: Flask's default session serialiser writes the session as JSON with sorted keys. A later request therefore sees the groups in the string order of their ids ("10" before "9"), not in insertion order. The model does not apply this reordering: each operation takes the cart in the order the request finds it, so the order results (`Cart.SetLines` appending a new key, `CartOps.RemoveGroupsOrder`) hold within one request.
- Uploads.LowerChar: maps only `A`-`Z` to lower case, whereas Python's `str.lower` also lower-cases non-ASCII letters; non-ASCII characters are returned unchanged. The next line explains why this does not change which file names are accepted.
- Uploads.Lower: lower-cases ASCII letters only, which is weaker than Python's Unicode `str.lower`. Under `str.lower` the only non-ASCII characters that produce ASCII letters are the Kelvin sign (to `k`) and the dotted capital I (to `i` plus a combining dot). Neither can complete an allowed extension, so the accept/refuse verdict is the same.
- CartOps.AddToCart: on failure it returns only the error. That the session keeps its previous cart is implicit in the caller, not stated in the contract; `CartOps.AddRepeatedly` states it for unknown ids.
