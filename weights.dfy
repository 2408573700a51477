/** The two ways the code adds passenger weights. `parseFloat(String(w)) || 0`
    (validate route, PassengerForm, WalkInBooking) reads every non-number as 0;
    plain `sum + w` (create route) reads `null` as 0 and turns the whole sum
    into NaN for NaN or an absent weight. */
module Weights {
  import opened Types

  /** `parseFloat(String(w)) || 0`: `"null"` and `"undefined"` parse as NaN. */
  function Parsed(w: Weight): (r: real)
    ensures w.Kg? ==> r == w.kg
    ensures !w.Kg? ==> r == 0.0
  {
    match w
    case Kg(x) => x
    case Null => 0.0
    case NotANumber => 0.0
  }

  /** `passengers.reduce((sum, p) => sum + (parseFloat(String(p.weight_kg)) || 0), 0)`. */
  function ParsedTotal(ps: seq<PassengerInput>): real {
    if ps == [] then 0.0 else Parsed(ps[0].weight_kg) + ParsedTotal(ps[1..])
  }

  /** The number `+` and `<` see: `null` converts to 0. */
  function AsNumber(w: Weight): real
    requires !w.NotANumber?
  {
    if w.Kg? then w.kg else 0.0
  }

  /** JavaScript `+`: `null` counts as 0, and NaN or `undefined` absorbs everything. */
  function Add(a: Weight, b: Weight): (r: Weight)
    ensures r.NotANumber? <==> a.NotANumber? || b.NotANumber?
    ensures !r.Null?
    ensures r.Kg? ==> r.kg == AsNumber(a) + AsNumber(b)
  {
    if a.NotANumber? || b.NotANumber? then NotANumber else Kg(AsNumber(a) + AsNumber(b))
  }

  /** `passengers.reduce((sum, p) => sum + p.weight_kg, 0)`. */
  function RawTotal(ps: seq<PassengerInput>): Weight {
    if ps == [] then Kg(0.0) else Add(ps[0].weight_kg, RawTotal(ps[1..]))
  }

  predicate AllNumeric(ps: seq<PassengerInput>) {
    forall i :: 0 <= i < |ps| ==> ps[i].weight_kg.Kg?
  }

  /** Every weight is a number or `null`: none makes a plain sum NaN. */
  predicate Summable(ps: seq<PassengerInput>) {
    forall i :: 0 <= i < |ps| ==> !ps[i].weight_kg.NotANumber?
  }

  lemma {:induction false} ParsedTotalAppend(a: seq<PassengerInput>, b: seq<PassengerInput>)
    ensures ParsedTotal(a + b) == ParsedTotal(a) + ParsedTotal(b)
  {
    if a != [] {
      assert (a + b)[0] == a[0];
      assert (a + b)[1..] == a[1..] + b;
      ParsedTotalAppend(a[1..], b);
    } else {
      assert a + b == b;
    }
  }

  /** A passenger whose weight is not a number (`null`, NaN or absent) adds
      nothing to the parsed total. */
  lemma NonNumberAddsNothing(a: seq<PassengerInput>, name: string, w: Weight, b: seq<PassengerInput>)
    requires !w.Kg?
    ensures ParsedTotal(a + [PassengerInput(name, w)] + b) == ParsedTotal(a + b)
  {
    var p := [PassengerInput(name, w)];
    ParsedTotalAppend(a + p, b);
    ParsedTotalAppend(a, p);
    ParsedTotalAppend(a, b);
    assert ParsedTotal(p) == 0.0 + ParsedTotal(p[1..]);
  }

  /** With every weight a number or `null`, both readings agree: each
      reads `null` as 0. */
  lemma {:induction false} RawTotalOfNumbers(ps: seq<PassengerInput>)
    requires Summable(ps)
    ensures RawTotal(ps) == Kg(ParsedTotal(ps))
  {
    if ps != [] {
      assert !ps[0].weight_kg.NotANumber?;
      assert Summable(ps[1..]) by {
        forall i | 0 <= i < |ps[1..]| ensures !ps[1..][i].weight_kg.NotANumber? {
          assert ps[1..][i] == ps[i + 1];
        }
      }
      RawTotalOfNumbers(ps[1..]);
    }
  }

  /** One weight that is NaN or absent makes the plain sum NaN. */
  lemma {:induction false} RawTotalNaN(ps: seq<PassengerInput>, i: nat)
    requires i < |ps| && ps[i].weight_kg.NotANumber?
    ensures RawTotal(ps).NotANumber?
  {
    if i > 0 {
      assert ps[1..][i - 1] == ps[i];
      RawTotalNaN(ps[1..], i - 1);
    }
  }
}
