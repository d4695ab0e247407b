# Ubermelon storefront: cart, session and customer store

A Dafny model of the logic inside the Ubermelon shopping site, a small Flask
storefront. It covers three parts:

- **Cart view** (`shopping_cart`, module `Cart`). The ids in a visitor's cart
  are resolved against the catalog. Repeated ids are grouped into one order
  line. Each line carries the price, name, quantity and subtotal. The
  subtotals are then added into `total_cost`.
- **Session routes** (module `Sessions`, class `Session`). A session holds
  the logged-in customer's email, if any, and the cart. The routes are
  `add_to_cart`, `process_login`, `process_logout` and `checkout`.
- **Customer store** (`customers.py`, module `Customers`). Each line of the
  customer file is stripped and split on `|` into exactly four fields. The
  fields become a `Customer`. Customers are stored in a map keyed by email,
  and later lines replace earlier ones. `get_by_email` looks a customer up.

Modelling choices:

- Prices are integers in cents, so every sum is exact.
- The catalog (the `melons` module, which is not part of this model) is a
  `map<int, Item>` passed as a parameter. An id that the catalog lacks fails
  the cart view with `NoSuchItem`.
- The source keys `melon_order` by the melon object. That only groups
  correctly because one id always resolves to the same object. The model
  keys the map by item id.
- `melon_order.values()` has no promised order. The model lists the lines in
  the order their ids were first inserted, which is first-occurrence order
  in the cart. Each line also records the id it was grouped under.
- The session is an explicit object with two fields. A cart key that was
  never set is the empty cart. The two cases behave the same:
  `add_to_cart` treats both as false, and `shopping_cart` shows no lines for
  either.
- `request.form.get` can return None, so the submitted email and password
  are `Option<string>`.
- `strip()` removes the whitespace of Python 2 byte strings: space, tab,
  newline, carriage return, vertical tab and form feed.
- Logout follows the code (shoppingsite.py:178): logging out while nobody
  is logged in raises `KeyError`. The model returns `KeyError` and leaves
  the session unchanged.
- The customer map is built from a sequence of line strings, not a file.
  Parsing a line is separated from storing it (`ParseAll`, then `Store`).
  `LoadCustomers(lines)` is `Store(ParseAll(lines))`, and the lemmas about
  the stored map are stated over the parsed lines.

## Model

| member | source | states |
|---|---|---|
| `Cart.Distinct` | shoppingsite.py:84-90 | The grouping keys are exactly the ids that occur in the cart. |
| `Cart.DistinctUnique` | shoppingsite.py:84-90 | No id gets a second key: the key list has no duplicates. |
| `Cart.Aggregate` | shoppingsite.py:77-94 | There is exactly one order line per distinct cart id, and no two lines share an id. Each line's quantity is the id's count (at least 1). Its price and name come from the catalog. Its subtotal is quantity × price. |
| `Cart.GroupNewItem` | shoppingsite.py:84-90 | A first occurrence inserts a line with quantity 1 and subtotal one price, and the map still groups the cart read so far. |
| `Cart.GroupRepeatedItem` | shoppingsite.py:92-94 | A repeat adds 1 to the quantity and one price to the subtotal, and the map still groups the cart read so far. |
| `Cart.LineStep` | shoppingsite.py:84-94 | One more cart id changes only that id's expected line, by one unit and one price. |
| `Cart.Tally` | shoppingsite.py:84-94 | One loop step for a resolved id: a first occurrence creates its line, a repeat adds one unit and one price, and the map then groups the cart read so far followed by that id. |
| `Cart.GroupByItem` | shoppingsite.py:74-94 | The first loop. It fails exactly when some cart id is not in the catalog, and then reports the first such id. Otherwise the map holds, for exactly the distinct ids, the line the whole cart calls for. |
| `Cart.OrderValues` | shoppingsite.py:102 | Listing the finished map by its ids gives the aggregated lines. |
| `Cart.TotalCost` | shoppingsite.py:104-108 | The second loop adds up the subtotals of the order lines: the result is their sum. |
| `Cart.ShoppingCart` | shoppingsite.py:62-111 | The cart view fails exactly when an id does not resolve, and names the first such id. Otherwise its lines are the aggregated lines and `total_cost` is the sum of their subtotals, which is the sum of every cart unit's price. An empty cart gives no lines and total 0. |
| `Cart.QuantitiesCoverCart` | shoppingsite.py:77-94 | The quantities of all order lines add up to the length of the cart. |
| `Cart.SubtotalsCoverCart` | shoppingsite.py:102-108 | The subtotals of all order lines add up to the sum over the cart of each id's price. |
| `Cart.GroupedIsUngrouped` | shoppingsite.py:77-108 | For any per-id weight, summing count × weight over the distinct ids equals summing the weight over the cart. |
| `Cart.AddOneUnit` | shoppingsite.py:124-127 | Adding an id to the cart raises that id's count by one and leaves every other count alone. It raises the cart total by the id's price. |
| `Sessions.Authenticate` | shoppingsite.py:155-166 | Login has three outcomes. An email that is missing or not a key gives "No such email". A known email whose stored password differs from the submitted one gives "Incorrect password". An exact match gives success. |
| `Sessions.Session.AddToCart` | shoppingsite.py:124-127 | The new cart is the old cart (empty if it was never set) followed by the id. The logged-in email is unchanged. |
| `Sessions.Session.ProcessLogin` | shoppingsite.py:149-166 | The outcome is `Authenticate`'s. On success the logged-in email becomes the submitted one, which is a stored customer's. On failure the session is unchanged. The cart is never touched. |
| `Sessions.Session.ProcessLogout` | shoppingsite.py:178 | It succeeds exactly when someone was logged in; otherwise it reports KeyError. Afterwards nobody is logged in and the cart is unchanged. |
| `Sessions.Session.Checkout` | shoppingsite.py:182-190 | Checkout leaves both session fields as they were. |
| `Customers.StripLeft` | customers.py:42 | The result is a suffix of the input. Everything dropped is whitespace, and the result does not start with whitespace. |
| `Customers.StripRight` | customers.py:42 | The result is a prefix of the input. Everything dropped is whitespace, and the result does not end with whitespace. |
| `Customers.StripSlice` | customers.py:42 | `Strip` (`strip()`) gives a slice of the line with no whitespace at either end, and only whitespace lies outside that slice. |
| `Customers.StripTrailingWhitespace` | customers.py:38-42 | Trailing whitespace, such as the newline a file line ends with, does not change the stripped text. |
| `Customers.SplitCount` | customers.py:42 | `Split` on the pipe character gives one field more than the number of separators. |
| `Customers.SplitFieldsFree` | customers.py:42 | No field of `Split` (`split`) contains the separator. |
| `Customers.JoinSplit` | customers.py:42 | Joining the fields of `Split` with the separator gives the text back. |
| `Customers.SplitJoin` | customers.py:42 | Fields without a separator, joined and split again, come back unchanged. |
| `Customers.ParseLineFields` | customers.py:39-47 | `ParseLine` succeeds on a line exactly when its stripped text has three pipe separators. The customer's four fields, none containing a pipe, joined by pipes, then give the stripped text. Any other field count is a `WrongFieldCount` error that reports the count. |
| `Customers.ParseLineIgnoresNewline` | customers.py:38-42 | `ParseLine` parses a line the same with or without its trailing newline. |
| `Customers.ParseFormatLine` | customers.py:13-16 | `ParseLine` of `FormatLine` gives back the customer: a customer with no pipe in its fields and no outer whitespace on its line parses back to itself, so every field is stored unchanged. |
| `Customers.Store` | customers.py:34-47 | Building from an empty map succeeds exactly when every line parses. Every stored customer sits under its own email. |
| `Customers.FirstBadLineFails` | customers.py:38-42 | A failed `Store` (and so a failed `LoadCustomers`) reports the error of the first line that does not parse. |
| `Customers.StoreStopsAtFailure` | customers.py:38-42 | Once a line fails, the lines after it do not matter. |
| `Customers.StoredEmails` | customers.py:38-47 | After a successful `Store` (and so `LoadCustomers`), the stored keys are exactly the emails of the lines, so there is one entry per distinct email. |
| `Customers.LastLineWins` | customers.py:44-47 | In the map `Store` (and so `LoadCustomers`) builds, the customer stored under an email is the one from the last line with that email. |
| `Customers.StoreStep` | customers.py:44-47 | A line that parses adds its customer under its email, replacing any customer stored there before. |
| `Customers.ReadCustomers` | customers.py:28-49 | The line-by-line loop returns exactly `LoadCustomers` of its lines. |
| `Customers.GetByEmail` | customers.py:56-63 | Lookup succeeds exactly when the email is a key, and then returns the stored customer. Otherwise it reports KeyError with that email. |
| `Customers.LookupOwnEmail` | customers.py:44 | Looking up an email in a loaded map finds a customer whose email field is that email. |

## Left out

- Flask routing, templates, redirects, `flash` messages, the secret key,
  the Jinja setting and `app.run`. These are web glue. The outcomes that
  choose a flash message and a redirect are modelled as `LoginOutcome` and
  `LogoutOutcome`.
- `index`, `list_melons` and `show_melon`. They render the catalog and add
  no logic; the catalog itself is a parameter.
- The `melons` module (`get_all`, `get_by_id`) is not part of this model.
  Its lookup is a map lookup that fails for an unknown id.
- Floating-point prices. Prices are integer cents.
- The order of `melon_order.values()`. The source promises none; the model
  uses first-insertion order.
- Opening the customer file and the module-level load into the global
  `customer_info`. The model parses a given sequence of lines, and the
  customer map is passed to the login route as a parameter.
- `print` statements and `Customer.__repr__`. They are debugging output.
- How the session cookie is stored between requests. The model treats the
  session as plain get/set state.
- Concurrent requests on the same session.
- Sessions.Authenticate: credentials are compared as character sequences.
  Under Python 2 the stored email and password are byte strings read from
  the file while the submitted ones are unicode form values, so non-ASCII
  credentials never match in the source (the email is not found, or the
  password comparison is false); that byte-versus-unicode mismatch is not
  modelled, and the model can report `LoginSuccessful` for them.
