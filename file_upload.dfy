/**
 * The component that owns the committed parameter set and the open/closed
 * flag of the settings panel.
 */
module FileUpload {
  import opened ParamRules
  import JsNumber

  /** The parameter set the component starts with. */
  function InitialParameters(): (ps: seq<Param>)
    ensures |ps| == 4
    ensures ps[0].range == "0 --> 100" && ps[1].range == "-40 --> -120"
    ensures ps[2].range == PositiveKeyword && ps[3].range == NegativeKeyword
  {
    [ Param("Par 1", 80, "0 --> 100", 70, "minimum allowed", "par_1"),
      Param("Par 2", -90, "-40 --> -120", -90, "minimum", "par_2"),
      Param("Par 3", 80, "any positive integer", 70, "minimum allowed par", "par_3"),
      Param("Par 4", -90, "any negative integer", -90, "minimum", "par_4") ]
  }

  /** The two arrow descriptors of the initial set, resolved. */
  lemma InitialArrowRanges()
    ensures SubmitRange("0 --> 100") == Interval(At(0), At(100))
    ensures SubmitRange("-40 --> -120") == Interval(At(-120), At(-40))
  {
    assert JsNumber.Show(0) == "0";
    assert JsNumber.ShowNat(1) == "1";
    assert JsNumber.ShowNat(10) == "10";
    assert JsNumber.Show(100) == "100";
    assert JsNumber.ShowNat(4) == "4";
    assert JsNumber.Show(-40) == "-40";
    assert JsNumber.ShowNat(12) == "12";
    assert JsNumber.Show(-120) == "-120";
    assert ArrowDescriptor(0, 100) == "0 --> 100";
    assert ArrowDescriptor(-40, -120) == "-40 --> -120";
    ArrowDescriptorBounds(0, 100);
    ArrowDescriptorBounds(-40, -120);
  }

  /** The keyword descriptors of the initial set, resolved. */
  lemma InitialKeywordRanges()
    ensures SubmitRange(PositiveKeyword) == Interval(At(0), Unbounded)
    ensures SubmitRange(NegativeKeyword) == Interval(Unbounded, At(-1))
  {
    assert Text.Lower(PositiveKeyword) == PositiveKeyword;
    assert Text.Lower(NegativeKeyword) == NegativeKeyword;
    KeywordBounds(PositiveKeyword);
    KeywordBounds(NegativeKeyword);
  }

  /** A record is valid when its value lies in the interval its descriptor resolves to. */
  lemma ValidWithin(p: Param, r: Interval)
    requires SubmitRange(p.range) == r && InRange(p.value, r)
    ensures FieldValid(p)
  {
  }

  /** Every initial value passes its own range. */
  lemma InitialValuesValid()
    ensures FieldValid(InitialParameters()[0]) && FieldValid(InitialParameters()[1])
    ensures FieldValid(InitialParameters()[2]) && FieldValid(InitialParameters()[3])
  {
    var ps := InitialParameters();
    InitialArrowRanges();
    InitialKeywordRanges();
    ValidWithin(ps[0], Interval(At(0), At(100)));
    ValidWithin(ps[1], Interval(At(-120), At(-40)));
    ValidWithin(ps[2], Interval(At(0), Unbounded));
    ValidWithin(ps[3], Interval(Unbounded, At(-1)));
  }

  /** Every initial default passes its own range, so a cancel followed by a submit commits. */
  lemma InitialDefaultsValid()
    ensures FieldValid(ResetToDefaults(InitialParameters())[0])
    ensures FieldValid(ResetToDefaults(InitialParameters())[1])
    ensures FieldValid(ResetToDefaults(InitialParameters())[2])
    ensures FieldValid(ResetToDefaults(InitialParameters())[3])
  {
    var ds := ResetToDefaults(InitialParameters());
    InitialArrowRanges();
    InitialKeywordRanges();
    ValidWithin(ds[0], Interval(At(0), At(100)));
    ValidWithin(ds[1], Interval(At(-120), At(-40)));
    ValidWithin(ds[2], Interval(At(0), Unbounded));
    ValidWithin(ds[3], Interval(Unbounded, At(-1)));
  }

  /** The code variable names of the initial set are pairwise distinct. */
  lemma InitialNamesDistinct()
    ensures forall i, j :: 0 <= i < j < 4 ==>
      InitialParameters()[i].variable != InitialParameters()[j].variable
  {
  }

  class ParameterHost {
    var popupOpen: bool
    var parameters: seq<Param>

    constructor ()
      ensures !popupOpen && parameters == InitialParameters()
    {
      popupOpen := false;
      parameters := InitialParameters();
    }

    /** Opening the panel touches nothing but the flag. */
    method HandleProcess()
      modifies this`popupOpen
      ensures popupOpen && parameters == old(parameters)
    {
      popupOpen := true;
    }

    /** A commit replaces the parameter set wholesale. */
    method HandlePopupSubmit(updated: seq<Param>)
      modifies this`parameters
      ensures parameters == updated && popupOpen == old(popupOpen)
    {
      parameters := updated;
    }

    /** The panel's close callback: clears the flag, keeps the parameters. */
    method Close()
      modifies this`popupOpen
      ensures !popupOpen && parameters == old(parameters)
    {
      popupOpen := false;
    }
  }
}
