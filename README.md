# Order document schema

This project models the `Order` schema of an e-commerce back end
(`models/orderModel.js`) and proves what it guarantees about stored orders.
It covers the five field rules:

- a non-empty list of product references, each of which must be set;
- an untyped `payment` value that is carried through;
- a required buyer reference;
- a `status` drawn from a closed list of five texts, defaulting to
  `"Not Process"`;
- `createdAt`/`updatedAt` timestamps set when the order is created.

The model is pure. A `Candidate` is an order with every field optional.
`Create(candidate, now)` does three things in order:

1. Fill in the defaults. An unset product list becomes empty, and an unset
   status becomes `"Not Process"`.
2. Check every rule.
3. Either return an `Order`, with both timestamps set to `now`, or return
   `Err` with the set of every rule the candidate breaks. The document
   library reports one error per failing path, not only the first.

Status is the datatype `Status`. Its five labels are spelled as in the code:
`"Not Process"`, `"Processing"`, `"Shipped"`, `"deliverd"`, `"cancel"`.

The enum at `models/orderModel.js:21` spells the fourth label `"deliverd"`,
and `DeliveredIsMisspelledInEnum` proves that `"delivered"` is refused.

Files:

- `wrappers.dfy`: the `Option` and `Result` types.
- `order_model.dfy`: the schema, validation, creation and the lemmas about them.

## Model

| member | source | states |
|---|---|---|
| `OrderModel.ParseStatus` | models/orderModel.js:18-22 | a status text is accepted exactly when it is one of the five enum labels, and then the parsed status has that label |
| `OrderModel.StatusRoundTrip` | models/orderModel.js:21 | every status's label is in the enum, and parsing the label gives the same status back |
| `OrderModel.StatusLabelsAreExactlyTheStatuses` | models/orderModel.js:21 | a text is in the enum iff it is the label of some status, and of exactly one status |
| `OrderModel.DefaultStatusIsInEnum` | models/orderModel.js:20-21 | the default `"Not Process"` is itself an enum value, the label of `NotProcess` |
| `OrderModel.DeliveredIsMisspelledInEnum` | models/orderModel.js:21 | `"delivered"` is not a status; `"deliverd"` is |
| `OrderModel.PresentRefs` | models/orderModel.js:5-11 | the product list is usable exactly when every element is set; the result then has the same length and the same references in the same order |
| `OrderModel.Violations` | models/orderModel.js:5-29 | the reported violations name each broken rule: empty products, each unset product position, missing buyer, status outside the enum after the default is applied, and nothing else |
| `OrderModel.Create` | models/orderModel.js:3-29 | creation is refused exactly when some rule is broken, and a refusal reports all of the broken rules |
| `OrderModel.MessageIdentifiesViolation` | models/orderModel.js:5-29 | the reported reason determines the broken rule: no two violations share a message, and two unset product positions are named by different positions |
| `OrderModel.DecimalSpellsValue` | models/orderModel.js:6-10 | the position written into an unset product's message spells exactly that position in decimal |
| `OrderModel.AcceptedIffAcceptable` | models/orderModel.js:5-29 | a candidate is accepted iff it has a non-empty product list with every reference set, a buyer, and either no status or one from the enum |
| `OrderModel.DefaultStatusWhenAbsent` | models/orderModel.js:18-22 | with no status given, the created order's status is exactly `"Not Process"`, and no status violation is reported |
| `OrderModel.StatusMustBeInEnum` | models/orderModel.js:18-22 | a given status outside the enum refuses the candidate with that status named |
| `OrderModel.ProductsMustBeNonEmpty` | models/orderModel.js:27-29 | an empty or unset product list refuses the candidate with the reason "At least one product is required."; every created order has at least one product |
| `OrderModel.BuyerIsRequired` | models/orderModel.js:13-17 | a candidate without a buyer is refused with the buyer rule named; every created order has the buyer it was given |
| `OrderModel.ProductReferencesAreRequired` | models/orderModel.js:5-11 | an unset product reference at position `i` refuses the candidate and names position `i` |
| `OrderModel.CarriedThrough` | models/orderModel.js:3-25 | an accepted candidate's products keep their length and order, and its payment, buyer and given status are stored unchanged |
| `OrderModel.CreateFromOwnFields` | models/orderModel.js:3-29 | every order with at least one product and equal timestamps is exactly what creation from its own fields returns |
| `OrderModel.CreateIsIdempotent` | models/orderModel.js:18-29 | validating an order that creation produced returns that same order |
| `OrderModel.TimestampsAgreeOnCreation` | models/orderModel.js:24 | on creation both timestamps equal the given instant |
| `OrderModel.OrderScenarios` | models/orderModel.test.js:34-84 | a complete order keeps its fields; an unset status becomes `"Not Process"`; an invalid status, an empty product list and a missing buyer are each refused with that rule alone |

## Left out

- Persistence is not modelled: `save`, `mongoose.model`, the `Order` collection and `ref` population are library calls.
- Ids are opaque values compared only for equality. The model does not generate ids or cast strings to ids, so it has no cast errors.
- The system clock is a parameter. The creation instant is the `now` argument of `Create`.
- The contents of `payment` are not modelled. The field is untyped, so it is an opaque value that is passed through.
- A candidate cannot supply its own `createdAt`/`updatedAt`. Later saves, which move `updatedAt` forward, are not modelled either. Only creation is covered.
- Unset fields are one case. The library treats an explicit `null` differently from an absent field (for example, a default applies only to an absent one); the model does not make that distinction.
- Values of other types sent for `status` are not modelled, such as numbers the library would cast to text. Candidates carry status as text.
- Fields outside the schema are not modelled. The library drops them.
- Message: only the text for an empty product list comes from the schema. The texts for the other rules follow the library's default wording, which is outside this code.
- The combined "Order validation failed: …" error message is not modelled. A refusal is the set of violated rules.
