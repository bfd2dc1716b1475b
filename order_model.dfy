/** The `Order` document schema: the field rules an order must satisfy before
    it is stored, the default it receives for `status`, and the timestamps it
    is given when it is created.

    Validation follows the document library's behaviour: defaults are filled
    in first, then every field rule is checked, and a refused candidate is
    reported with ALL the rules it breaks (one violation per failing path),
    not only the first. */
module OrderModel {
  import opened Wrappers

  // ---------------------------------------------------------------------
  // Opaque values
  // ---------------------------------------------------------------------

  /** A document id. Generation, casting and `ref` population belong to the
      storage layer; here an id is only compared for equality. */
  datatype ObjectId = ObjectId(raw: nat)

  /** The untyped `payment` field: whatever structured value checkout stored,
      carried through unread. */
  datatype Payment = Payment(document: string)

  /** A point in time, in milliseconds since the epoch. */
  type Instant = nat

  // ---------------------------------------------------------------------
  // Order status
  // ---------------------------------------------------------------------

  /** The closed set of order statuses, spelled as the schema spells them
      (including "deliverd"). */
  datatype Status = NotProcess | Processing | Shipped | Deliverd | Cancel

  /** The stored text of each status. */
  function Label(st: Status): string {
    match st
    case NotProcess => "Not Process"
    case Processing => "Processing"
    case Shipped => "Shipped"
    case Deliverd => "deliverd"
    case Cancel => "cancel"
  }

  /** The `enum` list of the `status` path. */
  const StatusLabels: set<string> := {"Not Process", "Processing", "Shipped", "deliverd", "cancel"}

  /** The `default` of the `status` path. */
  const DefaultStatusLabel: string := "Not Process"

  /** Reads a status text; `None` for any text outside the enum. */
  function ParseStatus(s: string): (r: Option<Status>)
    ensures r.Some? <==> s in StatusLabels
    ensures r.Some? ==> Label(r.value) == s
  {
    if s == "Not Process" then Some(NotProcess)
    else if s == "Processing" then Some(Processing)
    else if s == "Shipped" then Some(Shipped)
    else if s == "deliverd" then Some(Deliverd)
    else if s == "cancel" then Some(Cancel)
    else None
  }

  /** Every status has a label in the enum, reading it back gives the same
      status, and so no two statuses share a label. */
  lemma StatusRoundTrip(st: Status)
    ensures Label(st) in StatusLabels
    ensures ParseStatus(Label(st)) == Some(st)
  {
  }

  /** Every label in the enum is the label of exactly one status. */
  lemma StatusLabelsAreExactlyTheStatuses(s: string)
    ensures s in StatusLabels <==> exists st: Status :: Label(st) == s
    ensures forall st1: Status, st2: Status :: Label(st1) == s && Label(st2) == s ==> st1 == st2
  {
    if s in StatusLabels {
      var st := ParseStatus(s).value;
      assert Label(st) == s;
    }
    forall st1: Status, st2: Status | Label(st1) == s && Label(st2) == s
      ensures st1 == st2
    {
      StatusRoundTrip(st1);
      StatusRoundTrip(st2);
    }
  }

  /** The schema default is itself one of the enum values, and is the
      label of `NotProcess`. */
  lemma DefaultStatusIsInEnum()
    ensures DefaultStatusLabel in StatusLabels
    ensures ParseStatus(DefaultStatusLabel) == Some(NotProcess)
  {
  }

  /** The spelling "delivered" is not a status: only "deliverd" is. */
  lemma DeliveredIsMisspelledInEnum()
    ensures ParseStatus("delivered") == None
    ensures ParseStatus("deliverd") == Some(Deliverd)
  {
  }

  // ---------------------------------------------------------------------
  // Candidates and orders
  // ---------------------------------------------------------------------

  /** The fields an order is constructed from, each of which may be unset.
      A product reference inside the list may be unset too. */
  datatype Candidate = Candidate(
    products: Option<seq<Option<ObjectId>>>,
    payment: Option<Payment>,
    buyer: Option<ObjectId>,
    status: Option<string>)

  /** A stored order: at least one product, a buyer, a status from the enum
      and the two timestamps. */
  datatype Order = Order(
    products: seq<ObjectId>,
    payment: Option<Payment>,
    buyer: ObjectId,
    status: Status,
    createdAt: Instant,
    updatedAt: Instant)

  /** The rule a candidate breaks. */
  datatype Violation =
    | ProductsEmpty               // the `products` validator
    | ProductMissing(index: nat)  // `required` on a `products` element
    | BuyerMissing                // `required` on `buyer`
    | StatusNotInEnum(value: string)  // `enum` on `status`

  /** The product list after defaults: an unset array is an empty one. */
  function ProductsOf(c: Candidate): seq<Option<ObjectId>> {
    c.products.GetOr([])
  }

  /** The status text after defaults: an unset status is "Not Process". */
  function StatusTextOf(c: Candidate): string {
    c.status.GetOr(DefaultStatusLabel)
  }

  /** The product references when every one of them is set, else `None`. */
  function PresentRefs(ps: seq<Option<ObjectId>>): (r: Option<seq<ObjectId>>)
    ensures r.Some? <==> forall i :: 0 <= i < |ps| ==> ps[i].Some?
    ensures r.Some? ==> |r.value| == |ps| && forall i :: 0 <= i < |ps| ==> ps[i] == Some(r.value[i])
  {
    if ps == [] then Some([])
    else
      match ps[0]
      case None => None
      case Some(p) =>
        match PresentRefs(ps[1..])
        case None => None
        case Some(rest) => Some([p] + rest)
  }

  /** Every rule the candidate breaks, after defaults are filled in. */
  function Violations(c: Candidate): (vs: set<Violation>)
    ensures ProductsEmpty in vs <==> |ProductsOf(c)| == 0
    ensures forall i: nat :: ProductMissing(i) in vs <==> i < |ProductsOf(c)| && ProductsOf(c)[i].None?
    ensures BuyerMissing in vs <==> c.buyer.None?
    ensures forall s :: StatusNotInEnum(s) in vs <==> s == StatusTextOf(c) && s !in StatusLabels
  {
    var ps := ProductsOf(c);
    var st := StatusTextOf(c);
    (if |ps| == 0 then {ProductsEmpty} else {})
    + (set i | 0 <= i < |ps| && ps[i].None? :: ProductMissing(i))
    + (if c.buyer.None? then {BuyerMissing} else {})
    + (if st in StatusLabels then {} else {StatusNotInEnum(st)})
  }

  /** The reason reported for a violation. The products rule carries the
      schema's own message; the others carry the library's default wording. */
  function Message(v: Violation): string {
    match v
    case ProductsEmpty => "At least one product is required."
    case ProductMissing(i) => "Path `products." + Decimal(i) + "` is required."
    case BuyerMissing => "Path `buyer` is required."
    case StatusNotInEnum(s) => "`" + s + "` is not a valid enum value for path `status`."
  }

  /** The decimal digits of `n`. */
  function Decimal(n: nat): (s: string)
    ensures |s| >= 1
    ensures forall k :: 0 <= k < |s| ==> '0' <= s[k] <= '9'
  {
    var digit := ('0' as int + n % 10) as char;
    if n < 10 then [digit] else Decimal(n / 10) + [digit]
  }

  /** The number a string of decimal digits spells. */
  function DigitsValue(s: string): nat
    requires forall k :: 0 <= k < |s| ==> '0' <= s[k] <= '9'
  {
    if s == [] then 0
    else DigitsValue(s[..|s| - 1]) * 10 + (s[|s| - 1] as int - '0' as int)
  }

  /** `Decimal(n)` spells `n`, so distinct positions get distinct digits. */
  lemma {:induction false} DecimalSpellsValue(n: nat)
    ensures DigitsValue(Decimal(n)) == n
  {
    if n >= 10 {
      var s := Decimal(n);
      assert s[..|s| - 1] == Decimal(n / 10);
      DecimalSpellsValue(n / 10);
    }
  }

  /** The reported reason determines the violation: no two violations,
      including two unset product positions, share a message. */
  lemma {:induction false} MessageIdentifiesViolation(v1: Violation, v2: Violation)
    requires Message(v1) == Message(v2)
    ensures v1 == v2
  {
    var m := Message(v1);
    match v1
    case ProductsEmpty =>
      assert m[0] == 'A';
    case ProductMissing(i) =>
      assert m[0] == 'P' && m[6] == 'p';
      var j := v2.index;
      var pre := "Path `products.";
      var suf := "` is required.";
      assert m == pre + Decimal(i) + suf;
      assert m == pre + Decimal(j) + suf;
      assert Decimal(i) == m[|pre|..|m| - |suf|];
      assert Decimal(j) == m[|pre|..|m| - |suf|];
      DecimalSpellsValue(i);
      DecimalSpellsValue(j);
    case BuyerMissing =>
      assert m[0] == 'P' && m[6] == 'b';
    case StatusNotInEnum(s) =>
      assert m[0] == '`';
      var t := v2.value;
      var suf := "` is not a valid enum value for path `status`.";
      assert m == "`" + s + suf;
      assert m == "`" + t + suf;
      assert s == m[1..|m| - |suf|];
      assert t == m[1..|m| - |suf|];
  }

  /** Creating an order at instant `now`: fill in defaults, check every
      rule, and either refuse with all the violations or store the order
      with both timestamps set to `now`. */
  function Create(c: Candidate, now: Instant): (r: Result<Order, set<Violation>>)
    ensures r.Err? <==> Violations(c) != {}
    ensures r.Err? ==> r.error == Violations(c)
  {
    var vs := Violations(c);
    var refs := PresentRefs(ProductsOf(c));
    var status := ParseStatus(StatusTextOf(c));
    if vs == {} && refs.Some? && c.buyer.Some? && status.Some? then
      Ok(Order(refs.value, c.payment, c.buyer.value, status.value, now, now))
    else
      assert vs != {} by {
        if refs.None? {
          var i :| 0 <= i < |ProductsOf(c)| && ProductsOf(c)[i].None?;
          assert ProductMissing(i) in vs;
        } else if c.buyer.None? {
          assert BuyerMissing in vs;
        } else if status.None? {
          assert StatusNotInEnum(StatusTextOf(c)) in vs;
        }
      }
      Err(vs)
  }

  // ---------------------------------------------------------------------
  // Properties of creation
  // ---------------------------------------------------------------------

  /** An independent statement of when the schema accepts a candidate. */
  predicate Acceptable(c: Candidate) {
    && c.products.Some?
    && |c.products.value| > 0
    && (forall i :: 0 <= i < |c.products.value| ==> c.products.value[i].Some?)
    && c.buyer.Some?
    && (c.status.None? || c.status.value in StatusLabels)
  }

  /** A candidate is accepted exactly when it is `Acceptable`. */
  lemma AcceptedIffAcceptable(c: Candidate, now: Instant)
    ensures Create(c, now).Ok? <==> Acceptable(c)
  {
  }

  /** With no status given, a created order has status "Not Process", and
      leaving the status out never by itself refuses a candidate. */
  lemma DefaultStatusWhenAbsent(c: Candidate, now: Instant)
    requires c.status.None?
    ensures Create(c, now).Ok? ==> Create(c, now).value.status == NotProcess
    ensures forall s :: StatusNotInEnum(s) !in Violations(c)
  {
  }

  /** A status outside the enum refuses the candidate and is reported. */
  lemma StatusMustBeInEnum(c: Candidate, now: Instant)
    ensures c.status.Some? && c.status.value !in StatusLabels ==>
      Create(c, now).Err? && StatusNotInEnum(c.status.value) in Create(c, now).error
  {
  }

  /** An empty or unset product list refuses the candidate with the
      schema's message; every created order has at least one product. */
  lemma ProductsMustBeNonEmpty(c: Candidate, now: Instant)
    ensures |ProductsOf(c)| == 0 ==>
      Create(c, now).Err? && ProductsEmpty in Create(c, now).error
    ensures Message(ProductsEmpty) == "At least one product is required."
    ensures Create(c, now).Ok? ==> |Create(c, now).value.products| > 0
  {
  }

  /** A candidate without a buyer is refused; every created order has the
      buyer it was given. */
  lemma BuyerIsRequired(c: Candidate, now: Instant)
    ensures c.buyer.None? ==> Create(c, now).Err? && BuyerMissing in Create(c, now).error
    ensures Create(c, now).Ok? ==> c.buyer == Some(Create(c, now).value.buyer)
  {
  }

  /** An unset product reference at position `i` refuses the candidate and
      names that position. */
  lemma ProductReferencesAreRequired(c: Candidate, now: Instant, i: nat)
    requires i < |ProductsOf(c)| && ProductsOf(c)[i].None?
    ensures Create(c, now).Err?
    ensures ProductMissing(i) in Create(c, now).error
  {
  }

  /** An accepted candidate's products (same length, same order), payment,
      buyer and given status are carried into the order unchanged. */
  lemma CarriedThrough(c: Candidate, now: Instant)
    requires Create(c, now).Ok?
    ensures var o := Create(c, now).value;
      && c.products.Some?
      && |o.products| == |c.products.value|
      && (forall i :: 0 <= i < |o.products| ==> c.products.value[i] == Some(o.products[i]))
      && o.payment == c.payment
      && c.buyer == Some(o.buyer)
      && (c.status.Some? ==> Label(o.status) == c.status.value)
  {
  }

  /** The candidate that re-states a stored order's own fields. */
  function AsCandidate(o: Order): Candidate {
    Candidate(
      Some(seq(|o.products|, i requires 0 <= i < |o.products| => Some(o.products[i]))),
      o.payment,
      Some(o.buyer),
      Some(Label(o.status)))
  }

  /** Any order with at least one product, created at a single instant, is
      exactly what creating it from its own fields gives back. */
  lemma {:induction false} CreateFromOwnFields(o: Order)
    requires |o.products| > 0 && o.createdAt == o.updatedAt
    ensures Create(AsCandidate(o), o.createdAt) == Ok(o)
  {
    var c := AsCandidate(o);
    StatusRoundTrip(o.status);
    AcceptedIffAcceptable(c, o.createdAt);
    CarriedThrough(c, o.createdAt);
    var r := Create(c, o.createdAt).value;
    assert r.products == o.products;
    StatusRoundTrip(r.status);
  }

  /** Normalisation is idempotent: validating an order that creation
      produced gives back the same order. */
  lemma {:induction false} CreateIsIdempotent(c: Candidate, now: Instant)
    requires Create(c, now).Ok?
    ensures Create(AsCandidate(Create(c, now).value), now) == Create(c, now)
  {
    ProductsMustBeNonEmpty(c, now);
    CreateFromOwnFields(Create(c, now).value);
  }

  /** Creation sets both timestamps to the same instant. */
  lemma TimestampsAgreeOnCreation(c: Candidate, now: Instant)
    requires Create(c, now).Ok?
    ensures Create(c, now).value.createdAt == Create(c, now).value.updatedAt == now
  {
  }

  /** The stored-document scenarios: a complete order keeps its fields, an
      unset status becomes "Not Process", and an invalid status, an empty
      product list or a missing buyer are each refused. */
  lemma {:induction false} OrderScenarios(now: Instant)
    ensures var good := Candidate(Some([Some(ObjectId(1))]), Some(Payment("Credit Card 100")), Some(ObjectId(2)), Some("Processing"));
      && Create(good, now) == Ok(Order([ObjectId(1)], Some(Payment("Credit Card 100")), ObjectId(2), Processing, now, now))
      && Create(good.(status := None), now).Ok?
      && Create(good.(status := None), now).value.status == NotProcess
      && Create(good.(status := Some("InvalidStatus")), now) == Err({StatusNotInEnum("InvalidStatus")})
      && Create(good.(products := Some([])), now) == Err({ProductsEmpty})
      && Create(good.(buyer := None), now) == Err({BuyerMissing})
  {
    var good := Candidate(Some([Some(ObjectId(1))]), Some(Payment("Credit Card 100")), Some(ObjectId(2)), Some("Processing"));
    assert Violations(good) == {};
    var refs := [Some(ObjectId(1))];
    assert refs[1..] == [];
    assert PresentRefs(refs[1..]) == Some([]);
    assert [ObjectId(1)] + [] == [ObjectId(1)];
    assert PresentRefs(refs) == Some([ObjectId(1)]);
    assert Violations(good.(status := Some("InvalidStatus"))) == {StatusNotInEnum("InvalidStatus")};
    assert Violations(good.(products := Some([]))) == {ProductsEmpty};
    assert Violations(good.(buyer := None)) == {BuyerMissing};
  }
}
