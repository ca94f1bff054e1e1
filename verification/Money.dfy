/**
 Money in paise: the GST split of an amount (apps/api/src/config/gst.config.ts), and the
 rupee field of the job form (apps/web/components/EmployerJobs.tsx). Both are computed in
 doubles; both are proved to give the integers meant.
 */
module Money {
  import opened Binary64
  import opened Wrappers

  // ---------- GST ----------

  const REGISTERED_STATE_CODE := "27"

  datatype GstSplit = GstSplit(base: int, gst: int, total: int, cgst: int, sgst: int, igst: int, placeOfSupply: string)

  /** 18 per cent, a half paisa going up. */
  function Gst(base: int): (g: int)
    ensures 100 * g - 50 <= 18 * base < 100 * g + 50 || 18 * base == 100 * g - 50
  {
    (18 * base + 50) / 100
  }

  function SplitGst(base: int, placeOfSupply: string): (s: GstSplit)
    ensures s.base == base && s.gst == Gst(base) && s.placeOfSupply == placeOfSupply
    ensures s.base + s.gst == s.total && s.cgst + s.sgst + s.igst == s.gst
    ensures placeOfSupply == "27" ==> s.igst == 0 && s.sgst <= s.cgst <= s.sgst + 1
    ensures placeOfSupply != "27" ==> s.cgst == s.sgst == 0
  {
    var gst := Gst(base);
    var intra := placeOfSupply == REGISTERED_STATE_CODE;
    var cgst := if intra then (gst + 1) / 2 else 0;
    GstSplit(base, gst, base + gst, cgst, if intra then gst - cgst else 0, if intra then 0 else gst, placeOfSupply)
  }

  /**
   The doubles agree: whatever `base * 18`, the division by 100, the halving, the addition and
   the subtraction are rounded to, the results are the integers above. So for every amount up
   to 2^53 / 9 paise, some ten thousand billion rupees.
   */
  lemma DoublesGiveTheSplit(base: int, place: string, product: real, quotient: real, half: real, rest: real,
    total: real)
    requires -LIMIT <= 9 * base <= LIMIT
    requires Rounds(18.0 * base as real, product) && Rounds(product / 100.0, quotient)
    requires Rounds(Round(quotient) as real / 2.0, half) && Rounds((Round(quotient) - Ceil(half)) as real, rest)
    requires Rounds((base + Round(quotient)) as real, total)
    ensures var s := SplitGst(base, place);
      && Round(quotient) == s.gst && total == s.total as real
      && (place == REGISTERED_STATE_CODE ==> Ceil(half) == s.cgst && rest == s.sgst as real && s.igst == 0)
      && (place != REGISTERED_STATE_CODE ==> Round(quotient) == s.igst && s.cgst == 0 == s.sgst)
  {
    hide Double, Rounds, Gst, Round, Ceil;
    GstIsExact(base, product, quotient);
    var g := Gst(base);
    GstIsSmall(base);
    HalfStays(g, half);
    CeilOfHalf(g);
    IntegerStays(g - (g + 1) / 2, rest);
    IntegerStays(base + g, total);
  }

  lemma GstIsSmall(base: int)
    requires -LIMIT <= 9 * base <= LIMIT
    ensures var g := Gst(base);
      -LIMIT <= g <= LIMIT && -LIMIT <= base + g <= LIMIT && -LIMIT <= g - (g + 1) / 2 <= LIMIT
  {}

  lemma IntegerStays(n: int, r: real)
    requires -LIMIT <= n <= LIMIT && Rounds(n as real, r)
    ensures r == n as real
  {
    hide Double, Rounds;
    Integers(n);
    ExactStays(n as real, r);
  }

  lemma HalfStays(n: int, r: real)
    requires -LIMIT <= n <= LIMIT && Rounds(n as real / 2.0, r)
    ensures r == n as real / 2.0
  {
    hide Double, Rounds;
    Integers(n);
    ExactStays(n as real / 2.0, r);
  }

  lemma CeilOfHalf(g: int)
    ensures Ceil(g as real / 2.0) == (g + 1) / 2
  {
    var c := (g + 1) / 2;
    assert g == 2 * c || g == 2 * c - 1;
    assert -(g as real / 2.0) == (-c) as real || -(g as real / 2.0) == (-c) as real + 0.5;
  }

  lemma GstIsExact(base: int, product: real, quotient: real)
    requires -LIMIT <= 9 * base <= LIMIT
    requires Rounds(18.0 * base as real, product) && Rounds(product / 100.0, quotient)
    ensures Round(quotient) == Gst(base)
  {
    hide Double, Is;
    Integers(9 * base);
    assert 18.0 * base as real == 2.0 * (9 * base) as real;
    ExactStays(18.0 * base as real, product);
    var x, g := product / 100.0, Gst(base);
    Integers(2 * g - 1);
    NoCrossing(x, quotient, (2 * g - 1) as real / 2.0);
    // the next half is a fiftieth or more away, and doubles lie closer than that
    assert 50.0 * x == (9 * base) as real && 9 * base <= 50 * g + 24;
    Powers();
    SmallError(x, quotient, 5);
    assert quotient - x <= 1.0 / 64.0;
    assert g as real - 0.5 <= quotient < g as real + 0.5;
  }

  lemma TotalIncreases(a: int, b: int, state: string)
    requires a < b
    ensures SplitGst(a, state).total < SplitGst(b, state).total
  {}

  /** The amount before tax can be read back off the total. */
  lemma BaseFromTotal(base: int, state: string)
    ensures (100 * SplitGst(base, state).total + 59) / 118 == base
  {
    var t := SplitGst(base, state).total;
    assert 118 * base - 50 <= 100 * t <= 118 * base + 50;
  }

  function Sum(xs: seq<int>): int {
    if xs == [] then 0 else Sum(xs[..|xs| - 1]) + xs[|xs| - 1]
  }

  function Taxes(bases: seq<int>): seq<int> {
    seq(|bases|, i requires 0 <= i < |bases| => Gst(bases[i]))
  }

  /** Over many invoices the tax strays from 18 per cent of the turnover by no more than half a paisa each. */
  lemma {:induction false} Drift(bases: seq<int>)
    ensures -50 * |bases| <= 100 * Sum(Taxes(bases)) - 18 * Sum(bases) <= 50 * |bases|
  {
    if bases != [] {
      var front := bases[..|bases| - 1];
      Drift(front);
      assert Taxes(bases)[..|bases| - 1] == Taxes(front);
    }
  }

  // ---------- the salary field ----------

  const SALARY_LIMIT := 100 * 0x2000_0000_0000  // 100 * 2^45

  /**
   Paise divided by 100, printed, parsed, multiplied by 100 and rounded are the same paise. Printing
   a double and parsing the text gives the double back (ECMA-262, section 6.1.6.1.20).
   */
  lemma SalaryRoundTrip(paise: int, rupees: real, product: real)
    requires -SALARY_LIMIT < paise < SALARY_LIMIT
    requires Rounds(paise as real / 100.0, rupees) && Rounds(rupees * 100.0, product)
    ensures Round(product) == paise
  {
    hide Double, Is;
    var x := paise as real / 100.0;
    Powers();
    SmallError(x, rupees, 8);
    Integers(paise);
    var y := rupees * 100.0;
    assert Abs(y - paise as real) <= 100.0 / 512.0;
    assert Abs(product - y) <= Abs(paise as real - y);
    assert Abs(product - paise as real) < 0.5;
  }

  datatype Job = Job(salaryMin: Option<int>, salaryMax: Option<int>, notDisclosed: bool)

  /** The form holds rupees, as the doubles their texts stand for; none is the empty field. */
  datatype Form = Form(salaryMin: Option<real>, salaryMax: Option<real>, notDisclosed: bool)

  /** A field of the PATCH body that is absent leaves the stored value alone. */
  datatype Field = Absent | Null | Paise(value: int)

  function Patched(was: Option<int>, f: Field): Option<int> {
    match f
    case Absent => was
    case Null => None
    case Paise(n) => Some(n)
  }

  /** `rupees` is what openEditForm fills in for `paise`. */
  ghost predicate Prefilled(paise: Option<int>, rupees: Option<real>) {
    match (paise, rupees)
    case (None, None) => true
    case (Some(p), Some(r)) => Rounds(p as real / 100.0, r)
    case _ => false
  }

  /** `f` is what saveJob sends for a field. */
  ghost predicate Saved(rupees: Option<real>, notDisclosed: bool, f: Field) {
    if notDisclosed then f == Null
    else match rupees
      case None => f == Absent
      case Some(r) => f.Paise? && exists product: real | Rounds(r * 100.0, product) :: f.value == Round(product)
  }

  predicate InRange(p: Option<int>) {
    p.Some? ==> -SALARY_LIMIT < p.value < SALARY_LIMIT
  }

  /**
   Opening a job and saving it unchanged keeps its salary, exactly unless it has one and hides it: then it is
   cleared.
   */
  lemma UnchangedFormKeepsSalary(job: Job, form: Form, low: Field, high: Field)
    requires InRange(job.salaryMin) && InRange(job.salaryMax)
    requires Prefilled(job.salaryMin, form.salaryMin) && Prefilled(job.salaryMax, form.salaryMax)
      && form.notDisclosed == job.notDisclosed
    requires Saved(form.salaryMin, form.notDisclosed, low) && Saved(form.salaryMax, form.notDisclosed, high)
    ensures Patched(job.salaryMin, low) == job.salaryMin && Patched(job.salaryMax, high) == job.salaryMax
      <==> !(job.notDisclosed && (job.salaryMin.Some? || job.salaryMax.Some?))
  {
    hide Rounds, Round;
    FieldKept(job.salaryMin, form.salaryMin, form.notDisclosed, low);
    FieldKept(job.salaryMax, form.salaryMax, form.notDisclosed, high);
  }

  lemma FieldKept(paise: Option<int>, rupees: Option<real>, notDisclosed: bool, f: Field)
    requires InRange(paise) && Prefilled(paise, rupees) && Saved(rupees, notDisclosed, f)
    ensures Patched(paise, f) == paise <==> !(notDisclosed && paise.Some?)
  {
    hide Rounds, Round;
    if !notDisclosed && paise.Some? {
      var product: real :| Rounds(rupees.value * 100.0, product) && f.value == Round(product);
      SalaryRoundTrip(paise.value, rupees.value, product);
    }
  }
}
