/** The media input records of backend/models/media.py and the validators of
    `TextInput`. The four model validators run in pydantic's `mode='before'`
    on the raw input dictionary; the field validators check one field. Every
    validator either hands its input back unchanged or raises a `ValueError`,
    modelled as `Failure` with the error's kind. */
module MediaModels {
  import opened Wrappers
  import opened PyValues

  /** One coordinate of an overlay position: a named anchor or a pixel offset. */
  datatype Position = Named(name: string) | Pixel(offset: int)

  /** `ImageInput`: an image overlaid on a video (plain data). */
  datatype ImageInput = ImageInput(path: string, position: (Position, Position), duration: Option<real>, height: Option<int>)

  /** `VideoInput`: a video clip (plain data). */
  datatype VideoInput = VideoInput(path: string)

  /** `AudioInput`: an audio clip with its start time (plain data). */
  datatype AudioInput = AudioInput(path: string, startTime: real, duration: Option<real>)

  /** The default position of an image overlay, `('right', 'top')`. */
  const DefaultImagePosition: (Position, Position) := (Named("right"), Named("top"))

  /** The `ValueError`s the `TextInput` validators raise. */
  datatype TextInputError =
    | MissingTextOrFilename
    | FontSizeRequiredForLabel
    | SizeRequiredForCaption
    | BgColorNotRgba
    | MarginNotTuple
    | MarginBadLength
    | MarginNotNumber
    | MarginNegative
    | BadMethod
    | BadTextAlign
    | BadHorizontalAlign
    | BadVerticalAlign
  {
    /** The error message the source raises. */
    function Message(): string {
      match this
      case MissingTextOrFilename => "Either text or filename must be provided."
      case FontSizeRequiredForLabel => "Font size must be provided when method is 'label'."
      case SizeRequiredForCaption => "Size must be provided when method is 'caption'."
      case BgColorNotRgba => "Background colour should be a touple of 4 when Transparent is True."
      case MarginNotTuple => "Margin must be a tuple."
      case MarginBadLength => "Margin tuple must have length 2 or 4."
      case MarginNotNumber => "Margin values must be numbers or None."
      case MarginNegative => "Margin values must be non-negative."
      case BadMethod => "Method must be either 'label' or 'caption'."
      case BadTextAlign => "Text align must be one of 'center', 'left', or 'right'."
      case BadHorizontalAlign => "Horizontal align must be one of 'center', 'left', or 'right'."
      case BadVerticalAlign => "Vertical align must be one of 'center', 'top', or 'bottom'."
    }
  }

  /** The raw input dictionary of a `TextInput`. */
  type Values = map<string, Value>

  /** The key is present and its value is not `None`. */
  predicate Given(values: Values, key: string) {
    key in values && values[key] != PyNone
  }

  /** The key is present and holds exactly the string `s`. */
  predicate GivenString(values: Values, key: string, s: string) {
    key in values && values[key] == PyStr(s)
  }

  // ---------------------------------------------------------------------------
  // Model validators (mode='before')

  /** `ensure_text_or_filename`. */
  function EnsureTextOrFilename(values: Values): (r: Result<Values, TextInputError>)
    ensures r.Success? <==> Given(values, "text") || Given(values, "filename")
    ensures r.Success? ==> r.value == values
    ensures r.Failure? ==> r.error == MissingTextOrFilename
  {
    if Get(values, "filename") == PyNone && Get(values, "text") == PyNone then
      Failure(MissingTextOrFilename)
    else
      Success(values)
  }

  /** `validate_font_size_for_label`: reads the raw `method`, so an omitted
      `method` (whose default is `'label'`) does not trigger the rule. */
  function ValidateFontSizeForLabel(values: Values): (r: Result<Values, TextInputError>)
    ensures r.Success? <==> (GivenString(values, "method", "label") ==> Given(values, "font_size"))
    ensures r.Success? ==> r.value == values
    ensures r.Failure? ==> r.error == FontSizeRequiredForLabel
  {
    var methodValue := Get(values, "method");
    var fontSize := Get(values, "font_size");
    if methodValue == PyStr("label") && fontSize == PyNone then
      Failure(FontSizeRequiredForLabel)
    else
      Success(values)
  }

  /** `validate_size_for_caption`. */
  function ValidateSizeForCaption(values: Values): (r: Result<Values, TextInputError>)
    ensures r.Success? <==> (GivenString(values, "method", "caption") ==> Given(values, "size"))
    ensures r.Success? ==> r.value == values
    ensures r.Failure? ==> r.error == SizeRequiredForCaption
  {
    var methodValue := Get(values, "method");
    var size := Get(values, "size");
    if methodValue == PyStr("caption") && size == PyNone then
      Failure(SizeRequiredForCaption)
    else
      Success(values)
  }

  /** `validate_bg_color_length`: a tuple `bg_color` must have four entries when
      `transparent` is truthy; strings, `None` and a falsy or absent
      `transparent` pass. */
  function ValidateBgColorLength(values: Values): (r: Result<Values, TextInputError>)
    ensures r.Success? <==>
      !("transparent" in values && Truthy(values["transparent"]) &&
        "bg_color" in values && values["bg_color"].PyTuple? && |values["bg_color"].items| != 4)
    ensures r.Success? ==> r.value == values
    ensures r.Failure? ==> r.error == BgColorNotRgba
  {
    var bgColor := Get(values, "bg_color");
    var transparent := Get(values, "transparent");
    if Truthy(transparent) && bgColor.PyTuple? && |bgColor.items| != 4 then
      Failure(BgColorNotRgba)
    else
      Success(values)
  }

  /** The four model-level rules together, stated on the input dictionary. */
  predicate TextInputRules(values: Values) {
    && (Given(values, "text") || Given(values, "filename"))
    && (GivenString(values, "method", "label") ==> Given(values, "font_size"))
    && (GivenString(values, "method", "caption") ==> Given(values, "size"))
    && !(Given(values, "transparent") && Truthy(values["transparent"]) &&
         Given(values, "bg_color") && values["bg_color"].PyTuple? && |values["bg_color"].items| != 4)
  }

  /** The rule of the input that error `e` reports as broken. */
  predicate Breaks(values: Values, e: TextInputError) {
    match e
    case MissingTextOrFilename => EnsureTextOrFilename(values).Failure?
    case FontSizeRequiredForLabel => ValidateFontSizeForLabel(values).Failure?
    case SizeRequiredForCaption => ValidateSizeForCaption(values).Failure?
    case BgColorNotRgba => ValidateBgColorLength(values).Failure?
    case _ => false
  }

  /** The position of each model validator in the class, in definition order. */
  function RuleIndex(e: TextInputError): nat {
    match e
    case MissingTextOrFilename => 0
    case FontSizeRequiredForLabel => 1
    case SizeRequiredForCaption => 2
    case BgColorNotRgba => 3
    case _ => 4
  }

  /** The four model validators on the raw input. Pydantic v2 wraps each
      `before` model validator around the ones defined above it, so they run
      in the reverse of their definition order: the background-colour check
      first and the text-or-filename check last. */
  function ValidateTextInputModel(values: Values): (r: Result<Values, TextInputError>)
    ensures r.Success? ==> r.value == values
  {
    var v4 :- ValidateBgColorLength(values);
    var v3 :- ValidateSizeForCaption(v4);
    var v2 :- ValidateFontSizeForLabel(v3);
    var v1 :- EnsureTextOrFilename(v2);
    Success(v1)
  }

  /** Model validation accepts exactly the inputs that keep all four rules and
      never rewrites the input. A reported error names a rule the input
      breaks, and of the broken rules it is the one defined last. */
  lemma TextInputModelValidation(values: Values)
    ensures ValidateTextInputModel(values).Success? <==> TextInputRules(values)
    ensures ValidateTextInputModel(values).Success? ==> ValidateTextInputModel(values).value == values
    ensures ValidateTextInputModel(values).Failure? ==> Breaks(values, ValidateTextInputModel(values).error)
    ensures ValidateTextInputModel(values).Failure? ==>
      forall e :: Breaks(values, e) ==> RuleIndex(e) <= RuleIndex(ValidateTextInputModel(values).error)
  {
    var r1 := EnsureTextOrFilename(values);
    var r2 := ValidateFontSizeForLabel(values);
    var r3 := ValidateSizeForCaption(values);
    var r4 := ValidateBgColorLength(values);
    assert TextInputRules(values) <==> r1.Success? && r2.Success? && r3.Success? && r4.Success?;
  }

  /** A `label` input with neither text nor font size, transparent, with a
      three-entry colour, breaks three rules; the colour rule is reported. */
  lemma ReportedErrorExample(values: Values)
    requires values == map["method" := PyStr("label"), "transparent" := PyBool(true),
      "bg_color" := PyTuple([PyInt(1), PyInt(2), PyInt(3)])]
    ensures Breaks(values, MissingTextOrFilename) && Breaks(values, FontSizeRequiredForLabel)
    ensures ValidateTextInputModel(values) == Failure(BgColorNotRgba)
  {
  }

  /** Omitting `method` skips both method-dependent rules, although `'label'` is
      the field's default. */
  lemma OmittedMethodSkipsMethodRules(values: Values)
    requires "method" !in values
    ensures ValidateFontSizeForLabel(values).Success? && ValidateSizeForCaption(values).Success?
  {
  }

  // ---------------------------------------------------------------------------
  // Field validators

  /** An entry a margin tuple may hold: `None` or a number that is not negative. */
  predicate MarginItemOk(v: Value) {
    v.PyNone? || (IsNumber(v) && NumberValue(v) >= 0.0)
  }

  /** `i` is the first entry of `items` that is not a valid margin entry. */
  predicate FirstBadMargin(items: seq<Value>, i: int) {
    0 <= i < |items| && !MarginItemOk(items[i]) && forall j :: 0 <= j < i ==> MarginItemOk(items[j])
  }

  /** `validate_margin_format` (mode='before'): a tuple of length 2 or 4 whose
      entries are `None` or non-negative numbers. The entries are checked in
      order, and the first bad one decides which of the two entry errors is raised. */
  method ValidateMarginFormat(margin: Value) returns (r: Result<Value, TextInputError>)
    ensures !margin.PyTuple? ==> r == Failure(MarginNotTuple)
    ensures margin.PyTuple? && |margin.items| != 2 && |margin.items| != 4 ==> r == Failure(MarginBadLength)
    ensures r.Success? <==>
      margin.PyTuple? && (|margin.items| == 2 || |margin.items| == 4) &&
      forall i :: 0 <= i < |margin.items| ==> MarginItemOk(margin.items[i])
    ensures r.Success? ==> r.value == margin
    ensures r == Failure(MarginNotNumber) <==>
      margin.PyTuple? && (|margin.items| == 2 || |margin.items| == 4) &&
      exists i :: FirstBadMargin(margin.items, i) && !IsNumber(margin.items[i])
    ensures r == Failure(MarginNegative) <==>
      margin.PyTuple? && (|margin.items| == 2 || |margin.items| == 4) &&
      exists i :: FirstBadMargin(margin.items, i) && IsNumber(margin.items[i])
  {
    if !margin.PyTuple? {
      return Failure(MarginNotTuple);
    }
    var items := margin.items;
    if |items| != 2 && |items| != 4 {
      return Failure(MarginBadLength);
    }
    var k := 0;
    while k < |items|
      invariant 0 <= k <= |items|
      invariant forall j :: 0 <= j < k ==> MarginItemOk(items[j])
    {
      var m := items[k];
      if !m.PyNone? && !IsNumber(m) {
        assert FirstBadMargin(items, k);
        return Failure(MarginNotNumber);
      }
      if IsNumber(m) && NumberValue(m) < 0.0 {
        assert FirstBadMargin(items, k);
        return Failure(MarginNegative);
      }
      k := k + 1;
    }
    return Success(margin);
  }

  /** `validate_method_allowed_values`. */
  function ValidateMethod(methodName: string): (r: Result<string, TextInputError>)
    ensures r.Success? <==> methodName == "label" || methodName == "caption"
    ensures r.Success? ==> r.value == methodName
    ensures r.Failure? ==> r.error == BadMethod
  {
    if methodName in {"label", "caption"} then Success(methodName) else Failure(BadMethod)
  }

  /** `validate_text_align_allowed_values`. */
  function ValidateTextAlign(textAlign: string): (r: Result<string, TextInputError>)
    ensures r.Success? <==> textAlign == "center" || textAlign == "left" || textAlign == "right"
    ensures r.Success? ==> r.value == textAlign
    ensures r.Failure? ==> r.error == BadTextAlign
  {
    if textAlign in {"center", "left", "right"} then Success(textAlign) else Failure(BadTextAlign)
  }

  /** `validate_horizontal_align_allowed_values`. */
  function ValidateHorizontalAlign(horizontalAlign: string): (r: Result<string, TextInputError>)
    ensures r.Success? <==> horizontalAlign == "center" || horizontalAlign == "left" || horizontalAlign == "right"
    ensures r.Success? ==> r.value == horizontalAlign
    ensures r.Failure? ==> r.error == BadHorizontalAlign
  {
    if horizontalAlign in {"center", "left", "right"} then Success(horizontalAlign) else Failure(BadHorizontalAlign)
  }

  /** `validate_vertical_align_allowed_values`. */
  function ValidateVerticalAlign(verticalAlign: string): (r: Result<string, TextInputError>)
    ensures r.Success? <==> verticalAlign == "center" || verticalAlign == "top" || verticalAlign == "bottom"
    ensures r.Success? ==> r.value == verticalAlign
    ensures r.Failure? ==> r.error == BadVerticalAlign
  {
    if verticalAlign in {"center", "top", "bottom"} then Success(verticalAlign) else Failure(BadVerticalAlign)
  }

  /** The field defaults (`'label'`, `'left'`, `'center'`, `'center'`) are among the allowed values. */
  lemma DefaultsAllowed()
    ensures ValidateMethod("label").Success? && ValidateTextAlign("left").Success?
    ensures ValidateHorizontalAlign("center").Success? && ValidateVerticalAlign("center").Success?
  {
  }
}
