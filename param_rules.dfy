/**
 * The parameter validator of the settings panel: a parameter record, the
 * resolution of its range descriptor into inclusive bounds, the validity
 * check, and the working-copy transformations the panel applies to a list
 * of records.
 */
module ParamRules {
  import opened Text
  import JsNumber

  /** One processing parameter, as the settings panel edits it. */
  datatype Param = Param(
    name: string,
    value: int,
    range: string,
    default: int,
    description: string,
    variable: string)

  /** One end of a resolved range: a number, no limit (an infinity), or `NaN`. */
  datatype Bound = At(n: int) | Unbounded | NotANumber

  /** Resolved bounds; an `Unbounded` minimum is -Infinity, an `Unbounded` maximum +Infinity. */
  datatype Interval = Interval(min: Bound, max: Bound)

  const Arrow := "-->"
  const Separator := " --> "
  const PositiveKeyword := "any positive integer"
  const NegativeKeyword := "any negative integer"
  const Everything := Interval(Unbounded, Unbounded)

  function FromNumber(x: JsNumber.Number): Bound {
    match x
    case Int(v) => At(v)
    case NaN => NotANumber
  }

  /** `x < 0`, which is false for `NaN`. */
  predicate Negative(x: JsNumber.Number) {
    x.Int? && x.value < 0
  }

  /**
   * The `-->` branch common to both handlers: split on `" --> "`, read the
   * first two pieces with `Number()` (a missing piece reads as `NaN`), and
   * swap the two when both are negative.
   */
  function ArrowBounds(range: string): (r: Interval)
    ensures r.min != Unbounded && r.max != Unbounded
    ensures var parts := Split(range, Separator);
      var a := FromNumber(JsNumber.FromString(parts[0]));
      var b := if |parts| >= 2 then FromNumber(JsNumber.FromString(parts[1])) else NotANumber;
      && (a.At? && b.At? && a.n < 0 && b.n < 0 ==> r == Interval(b, a))
      && (!(a.At? && b.At? && a.n < 0 && b.n < 0) ==> r == Interval(a, b))
  {
    var parts := Split(range, Separator);
    var val1 := JsNumber.FromString(parts[0]);
    var val2 := if |parts| >= 2 then JsNumber.FromString(parts[1]) else JsNumber.NaN;
    if Negative(val1) && Negative(val2) then Interval(FromNumber(val2), FromNumber(val1))
    else Interval(FromNumber(val1), FromNumber(val2))
  }

  /** Range resolution as the edit handler does it: every branch sets both ends. */
  function EditRange(range: string): (r: Interval)
    ensures Contains(range, Arrow) ==> r == ArrowBounds(range)
    ensures !Contains(range, Arrow) ==>
      && (r.min == At(0) || r.min == Unbounded) && (r.max == At(-1) || r.max == Unbounded)
      && (r.min == Unbounded || r.max == Unbounded)
  {
    if Contains(range, Arrow) then ArrowBounds(range)
    else if Lower(range) == PositiveKeyword then Interval(At(0), Unbounded)
    else if Lower(range) == NegativeKeyword then Interval(Unbounded, At(-1))
    else Everything
  }

  /** Range resolution as the submit handler does it: the keyword branches set one end only. */
  function SubmitRange(range: string): (r: Interval)
    ensures Contains(range, Arrow) ==> r == ArrowBounds(range)
    ensures !Contains(range, Arrow) ==>
      && (r.min == At(0) || r.min == Unbounded) && (r.max == At(-1) || r.max == Unbounded)
      && (r.min == Unbounded || r.max == Unbounded)
  {
    var unlimited := Everything;
    if Contains(range, Arrow) then ArrowBounds(range)
    else if Lower(range) == PositiveKeyword then unlimited.(min := At(0))
    else if Lower(range) == NegativeKeyword then unlimited.(max := At(-1))
    else unlimited
  }

  /** `value >= min`; every comparison with `NaN` is false. */
  predicate AtLeast(value: int, min: Bound) {
    match min
    case At(n) => value >= n
    case Unbounded => true
    case NotANumber => false
  }

  /** `value <= max`; every comparison with `NaN` is false. */
  predicate AtMost(value: int, max: Bound) {
    match max
    case At(n) => value <= n
    case Unbounded => true
    case NotANumber => false
  }

  /** `isValidNumber(value, min, max)`. */
  predicate IsValidNumber(value: int, min: Bound, max: Bound)
    ensures IsValidNumber(value, min, max) <==>
      && min != NotANumber && max != NotANumber
      && (min.At? ==> min.n <= value) && (max.At? ==> value <= max.n)
  {
    AtLeast(value, min) && AtMost(value, max)
  }

  /** A value lies in resolved bounds; open bounds accept every value, a `NaN` bound none. */
  predicate InRange(value: int, r: Interval)
    ensures r == Everything ==> InRange(value, r)
    ensures InRange(value, r) ==> r.min != NotANumber && r.max != NotANumber
  {
    IsValidNumber(value, r.min, r.max)
  }

  /** A field passes the submit-time check. */
  predicate FieldValid(p: Param) {
    InRange(p.value, SubmitRange(p.range))
  }

  /** `formData.some(...)`: some field fails its range. */
  predicate AnyInvalid(ps: seq<Param>)
    ensures AnyInvalid(ps) ==> |ps| > 0
    ensures !AnyInvalid(ps) <==> forall i :: 0 <= i < |ps| ==> InRange(ps[i].value, SubmitRange(ps[i].range))
  {
    exists i :: 0 <= i < |ps| && !FieldValid(ps[i])
  }

  /** `value || default` on numbers: a zero value is falsy. */
  function ValueOr(value: int, default: int): int {
    if value != 0 then value else default
  }

  /** The working copy made when the committed parameters arrive. */
  function WorkingCopy(ps: seq<Param>): (w: seq<Param>)
    ensures |w| == |ps|
    ensures forall i :: 0 <= i < |ps| ==>
      w[i].value == (if ps[i].value == 0 then ps[i].default else ps[i].value)
    ensures forall i :: 0 <= i < |ps| ==> w[i] == ps[i].(value := w[i].value)
  {
    seq(|ps|, i requires 0 <= i < |ps| => ps[i].(value := ValueOr(ps[i].value, ps[i].default)))
  }

  /** The working copy a cancel leaves: every value back to its default. */
  function ResetToDefaults(ps: seq<Param>): (w: seq<Param>)
    ensures |w| == |ps|
    ensures forall i :: 0 <= i < |ps| ==> w[i].value == ps[i].default
    ensures forall i :: 0 <= i < |ps| ==> w[i] == ps[i].(value := w[i].value)
  {
    seq(|ps|, i requires 0 <= i < |ps| => ps[i].(value := ps[i].default))
  }

  /** One error flag per field, all clear. */
  function NoErrors(n: nat): (flags: seq<bool>)
    ensures |flags| == n && forall i :: 0 <= i < n ==> !flags[i]
  {
    seq(n, _ => false)
  }

  // ---------------------------------------------------------------------
  // Properties of range resolution
  // ---------------------------------------------------------------------

  /** The descriptor `"<a> --> <b>"` built from two integers. */
  function ArrowDescriptor(a: int, b: int): string {
    JsNumber.Show(a) + Separator + JsNumber.Show(b)
  }

  /** The descriptor contains the arrow and splits into the two renderings. */
  lemma ArrowDescriptorPieces(a: int, b: int)
    ensures Contains(ArrowDescriptor(a, b), Arrow)
    ensures Split(ArrowDescriptor(a, b), Separator) == [JsNumber.Show(a), JsNumber.Show(b)]
  {
    var sa, sb := JsNumber.Show(a), JsNumber.Show(b);
    var d := ArrowDescriptor(a, b);
    assert ' ' !in sa && ' ' !in sb by {
      assert forall i :: 0 <= i < |sa| ==> sa[i] != ' ';
      assert forall i :: 0 <= i < |sb| ==> sb[i] != ' ';
    }
    SplitAround(sa, Separator, sb);
    assert d[|sa| + 1..|sa| + 4] == Arrow;
    assert OccursAt(d, Arrow, |sa| + 1);
  }

  /**
   * `"<a> --> <b>"` resolves to `[b, a]` when both ends are negative and to
   * `[a, b]` otherwise, at edit time and at submit time alike.
   */
  lemma ArrowDescriptorBounds(a: int, b: int)
    ensures var d := ArrowDescriptor(a, b);
      var expected := if a < 0 && b < 0 then Interval(At(b), At(a)) else Interval(At(a), At(b));
      EditRange(d) == expected && SubmitRange(d) == expected
  {
    var d := ArrowDescriptor(a, b);
    ArrowDescriptorPieces(a, b);
    JsNumber.ShowRoundTrip(a);
    JsNumber.ShowRoundTrip(b);
    assert ArrowBounds(d) == if a < 0 && b < 0 then Interval(At(b), At(a)) else Interval(At(a), At(b));
  }

  /**
   * Two negative ends are swapped in textual order, not sorted: the values
   * accepted by `"<a> --> <b>"` are exactly those in `[b, a]`, so a
   * descriptor written in ascending order accepts no value at all.
   */
  lemma BothNegativeSwapped(a: int, b: int, v: int)
    requires a < 0 && b < 0
    ensures InRange(v, EditRange(ArrowDescriptor(a, b))) <==> b <= v <= a
    ensures a < b ==> !InRange(v, EditRange(ArrowDescriptor(a, b)))
  {
    ArrowDescriptorBounds(a, b);
  }

  /** Unless both ends are negative the bounds keep their textual order. */
  lemma OtherSignsInOrder(a: int, b: int, v: int)
    requires a >= 0 || b >= 0
    ensures InRange(v, EditRange(ArrowDescriptor(a, b))) <==> a <= v <= b
  {
    ArrowDescriptorBounds(a, b);
  }

  /** Lower-casing never produces or removes a `-`. */
  lemma DashSurvivesLower(s: string, i: nat)
    requires i < |s|
    ensures s[i] == '-' <==> Lower(s)[i] == '-'
  {
  }

  /** A descriptor whose lower-case form has no `-` has no `-->` either. */
  lemma NoArrowWithoutDash(s: string)
    requires forall k :: 0 <= k < |s| ==> Lower(s)[k] != '-'
    ensures !Contains(s, Arrow)
  {
    var r := IndexOf(s, Arrow);
    if r.Some? {
      var i := r.value;
      assert s[i..i + 3] == Arrow;
      assert s[i] == '-';
      DashSurvivesLower(s, i);
      assert false;
    }
  }

  /**
   * The two keywords are matched case-insensitively and exactly:
   * "any positive integer" gives `[0, +Infinity)` and "any negative integer"
   * gives `(-Infinity, -1]`, at edit time and at submit time alike.
   */
  lemma KeywordBounds(s: string)
    ensures Lower(s) == PositiveKeyword ==>
      EditRange(s) == Interval(At(0), Unbounded) == SubmitRange(s)
    ensures Lower(s) == NegativeKeyword ==>
      EditRange(s) == Interval(Unbounded, At(-1)) == SubmitRange(s)
  {
    if Lower(s) == PositiveKeyword || Lower(s) == NegativeKeyword {
      assert forall k :: 0 <= k < |PositiveKeyword| ==> PositiveKeyword[k] != '-';
      assert forall k :: 0 <= k < |NegativeKeyword| ==> NegativeKeyword[k] != '-';
      NoArrowWithoutDash(s);
    }
  }

  /**
   * An arrow written without the surrounding spaces, as in "0-->100", is
   * not split: `Number()` reads the whole text as `NaN` and the field
   * accepts no value, at edit time and at submit time alike.
   */
  lemma ArrowWithoutSpacesRejectsAll(s: string, v: int)
    requires Contains(s, Arrow)
    requires forall k :: 0 <= k < |s| ==> !IsSpace(s[k])
    ensures !InRange(v, EditRange(s)) && !InRange(v, SubmitRange(s))
  {
    var i := IndexOf(s, Arrow).value;
    assert s[i..i + 3] == Arrow;
    assert s[i..i + 3][0] == s[i] && s[i..i + 3][1] == s[i + 1];
    assert s[i] == '-' && s[i + 1] == '-';
    assert Separator[0] !in s by {
      assert IsSpace(Separator[0]);
    }
    MissingFirstChar(s, Separator);
    assert Split(s, Separator) == [s];
    TrimNoSpace(s);
    if s[0] == '-' || s[0] == '+' {
      assert !JsNumber.IsDigit(s[1..][if i == 0 then 0 else i - 1]);
    } else {
      assert !JsNumber.IsDigit(s[i]);
    }
    assert JsNumber.FromString(s) == JsNumber.NaN;
  }

  /** A descriptor that is neither an arrow nor a keyword accepts every value. */
  lemma UnrecognisedAcceptsAll(s: string, v: int)
    requires !Contains(s, Arrow) && Lower(s) != PositiveKeyword && Lower(s) != NegativeKeyword
    ensures InRange(v, EditRange(s)) && InRange(v, SubmitRange(s))
  {
  }

  /** The edit handler and the submit handler resolve every descriptor to the same bounds. */
  lemma EditAgreesWithSubmit(s: string)
    ensures EditRange(s) == SubmitRange(s)
  {
  }

  /** Validity is inclusive at both ends and excludes everything outside. */
  lemma InclusiveBounds(lo: int, hi: int, v: int)
    ensures InRange(v, Interval(At(lo), At(hi))) <==> lo <= v <= hi
    ensures InRange(v, Interval(At(lo), Unbounded)) <==> lo <= v
    ensures InRange(v, Interval(Unbounded, At(hi))) <==> v <= hi
    ensures !InRange(v, Interval(NotANumber, At(hi))) && !InRange(v, Interval(At(lo), NotANumber))
  {
  }
}
