/** The contact form on the client: per-field validation with its error messages, the
    whole-form check run before submitting, and the order of effects of a submission. */
module Contact {
  import opened Wrappers
  import opened Text
  import opened EmailPattern

  /** One form control: its `name`, its `type` ("email", "text", "textarea", ...), its
      current value and whether it carries the `required` attribute. */
  datatype Input = Input(name: string, inputType: string, value: string, required: bool)

  const EmailMessage: string := "Please enter a valid email address"
  const LengthMessage: string := "Message must be at least 10 characters long"
  const RequiredSuffix: string := " is required"
  const MinMessageLength: nat := 10

  /** `str.charAt(0).toUpperCase() + str.slice(1)`, with ASCII case mapping. */
  function Capitalize(s: string): (r: string)
    ensures |r| == |s|
    ensures |s| > 0 ==> r[0] == UpperAscii(s[0])
    ensures forall k :: 1 <= k < |s| ==> r[k] == s[k]
  {
    if |s| == 0 then "" else [UpperAscii(s[0])] + s[1..]
  }

  /** Capitalising twice is capitalising once. */
  lemma CapitalizeIdempotent(s: string)
    ensures Capitalize(Capitalize(s)) == Capitalize(s)
  {}

  /** The message for a missing required value, e.g. "Email is required". */
  function RequiredMessage(name: string): (m: string)
    ensures |m| == |name| + |RequiredSuffix| && m[|name|..] == RequiredSuffix
  {
    Capitalize(name) + RequiredSuffix
  }

  /** What the three checks accept, each on the trimmed value and each skipped for an empty
      one except the presence check. */
  predicate Present(inp: Input) { !inp.required || Trim(inp.value) != "" }
  predicate WellFormedEmail(inp: Input) { inp.inputType == "email" && Trim(inp.value) != "" ==> IsEmail(Trim(inp.value)) }
  predicate LongEnough(inp: Input) { inp.name == "message" && Trim(inp.value) != "" ==> |Trim(inp.value)| >= MinMessageLength }

  /** The `errorMessage` `validateField` ends with; the empty string means the field is
      valid, which is exactly when all three checks accept. */
  function ErrorMessage(inp: Input): (msg: string)
    ensures msg == "" <==> Present(inp) && WellFormedEmail(inp) && LongEnough(inp)
  {
    var value := Trim(inp.value);
    var m0 := if inp.required && value == "" then RequiredMessage(inp.name) else "";
    var m1 := if inp.inputType == "email" && value != "" && !IsEmail(value) then EmailMessage else m0;
    var m2 := if inp.name == "message" && value != "" && |value| < MinMessageLength then LengthMessage else m1;
    m2
  }

  /** The checks run in order and a failing one overwrites the message of the one before,
      so the last failing check is the one reported: length over e-mail over presence. */
  lemma ErrorPrecedence(inp: Input)
    ensures !LongEnough(inp) ==> ErrorMessage(inp) == LengthMessage
    ensures LongEnough(inp) && !WellFormedEmail(inp) ==> ErrorMessage(inp) == EmailMessage
    ensures LongEnough(inp) && WellFormedEmail(inp) && !Present(inp) ==> ErrorMessage(inp) == RequiredMessage(inp.name)
  {}

  /** What the field's error element shows afterwards. */
  datatype Display = Shown(message: string) | Cleared

  /** `validateField(input)`: valid exactly when no message was set; the message is shown,
      or the error cleared. */
  function ValidateField(inp: Input): (r: (bool, Display))
    ensures r.0 <==> Present(inp) && WellFormedEmail(inp) && LongEnough(inp)
    ensures r.0 <==> r.1 == Cleared
    ensures !r.0 ==> r.1 == Shown(ErrorMessage(inp))
  {
    var msg := ErrorMessage(inp);
    if msg != "" then (false, Shown(msg)) else (true, Cleared)
  }

  /** Only the trimmed value counts: surrounding whitespace never changes the verdict or
      the message. */
  lemma ValidationIgnoresPadding(inp: Input, before: string, after: string)
    requires AllSpace(before) && AllSpace(after)
    ensures ValidateField(inp.(value := before + inp.value + after)) == ValidateField(inp)
  {
    TrimIgnoresPadding(before, inp.value, after);
  }

  /** An empty or blank field that is not required passes whatever its name or type; a
      required one fails with the required message. */
  lemma BlankFields(inp: Input)
    requires AllSpace(inp.value)
    ensures !inp.required ==> ValidateField(inp) == (true, Cleared)
    ensures inp.required ==> ValidateField(inp) == (false, Shown(RequiredMessage(inp.name)))
  {}

  /** A message of nine characters is rejected for its length even when required and
      present; one of ten passes. */
  lemma MessageLengthBoundary(inp: Input)
    requires inp.name == "message" && inp.inputType == "textarea"
    ensures ValidateField(inp.(value := "123456789")) == (false, Shown(LengthMessage))
    ensures ValidateField(inp.(value := "1234567890")).0
  {
    assert |inp.inputType| != |"email"|;
    var short := inp.(value := "123456789");
    var long := inp.(value := "1234567890");
    TrimUnique(short.value, short.value, 0);
    TrimUnique(long.value, long.value, 0);
    assert !LongEnough(short);
    ErrorPrecedence(short);
    assert WellFormedEmail(long) && LongEnough(long) && Present(long);
  }

  /** What `validateForm` leaves in a control's error element: required controls are
      validated, the others are not looked at (`None`). */
  function Checked(inp: Input): (d: Option<Display>)
    ensures d.Some? <==> inp.required
  {
    if inp.required then Some(ValidateField(inp).1) else None
  }

  /** A control whose error element shows nothing: not validated, or cleared. */
  predicate Clean(d: Option<Display>)
  {
    d.None? || d.value == Cleared
  }

  lemma CheckedClean(inp: Input)
    ensures Clean(Checked(inp)) <==> !inp.required || ValidateField(inp).0
  {}

  /** The error elements of `controls` after validating each in turn. */
  function CheckAll(controls: seq<Input>): (ds: seq<Option<Display>>)
    ensures |ds| == |controls|
  {
    if |controls| == 0 then [] else CheckAll(controls[..|controls| - 1]) + [Checked(controls[|controls| - 1])]
  }

  lemma {:induction false} CheckAllPointwise(controls: seq<Input>, j: int)
    requires 0 <= j < |controls|
    ensures CheckAll(controls)[j] == Checked(controls[j])
    decreases |controls|
  {
    if j < |controls| - 1 {
      var init := controls[..|controls| - 1];
      CheckAllPointwise(init, j);
      assert init[j] == controls[j];
    }
  }

  /** One iteration of `validateForm`: a required control is validated and its error element
      updated; any other control is skipped and counts as valid. */
  method CheckOne(inp: Input) returns (fine: bool, shown: Option<Display>)
    ensures shown == Checked(inp)
    ensures fine <==> !inp.required || ValidateField(inp).0
    ensures fine <==> Clean(shown)
  {
    fine, shown := true, None;
    if inp.required {
      var r := ValidateField(inp);
      fine, shown := r.0, Some(r.1);
    }
  }

  /** `validateForm(form)`: every required control is validated, none skipped after a
      failure, and the form is valid exactly when all of them are. */
  method ValidateForm(inputs: seq<Input>) returns (ok: bool, displays: seq<Option<Display>>)
    ensures |displays| == |inputs|
    ensures forall i :: 0 <= i < |inputs| ==> displays[i] == Checked(inputs[i])
    ensures ok <==> forall i :: 0 <= i < |inputs| && inputs[i].required ==> ValidateField(inputs[i]).0
  {
    ok := true;
    displays := [];
    for i := 0 to |inputs|
      invariant displays == CheckAll(inputs[..i])
      invariant ok <==> forall j :: 0 <= j < i ==> Clean(displays[j])
    {
      var fine, shown := CheckOne(inputs[i]);
      ok := ok && fine;
      ghost var before := displays;
      displays := displays + [shown];
      assert forall j :: 0 <= j < i ==> displays[j] == before[j];
      assert displays[i] == shown;
      assert (forall j :: 0 <= j < i + 1 ==> Clean(displays[j])) <==> (forall j :: 0 <= j < i ==> Clean(before[j])) && fine;
      assert inputs[..i + 1][..i] == inputs[..i];
    }
    assert inputs[..|inputs|] == inputs;
    forall i | 0 <= i < |inputs|
      ensures displays[i] == Checked(inputs[i])
      ensures Clean(displays[i]) <==> !inputs[i].required || ValidateField(inputs[i]).0
    {
      CheckAllPointwise(inputs, i);
      CheckedClean(inputs[i]);
    }
  }

  /** How the POST ends: no response, a non-2xx status, a body that is not JSON, or a JSON
      body whose `ok` field is truthy or not. */
  datatype Reply = Unreachable | HttpError | Malformed | Answered(ok: bool)

  /** The effects of `handleSubmit`, in order. */
  datatype Effect =
    | DisableButton
    | Post(data: seq<(string, string)>)
    | ShowSuccess
    | ResetForm
    | AlertFailure
    | EnableButton

  /** `Object.fromEntries(new FormData(form))`: every control's name and raw, untrimmed value. */
  function FormData(inputs: seq<Input>): (data: seq<(string, string)>)
    ensures |data| == |inputs|
    ensures forall i :: 0 <= i < |inputs| ==> data[i] == (inputs[i].name, inputs[i].value)
  {
    seq(|inputs|, i requires 0 <= i < |inputs| => (inputs[i].name, inputs[i].value))
  }

  /** `handleSubmit`: an invalid form has no effect beyond the field errors. A valid one
      disables the button, posts the raw values, then shows the success message and resets
      the form only on a reply whose `ok` is truthy, alerting on every other ending, and
      re-enables the button last on every path. */
  method HandleSubmit(inputs: seq<Input>, reply: Reply) returns (valid: bool, effects: seq<Effect>)
    ensures valid <==> forall i :: 0 <= i < |inputs| && inputs[i].required ==> ValidateField(inputs[i]).0
    ensures !valid ==> effects == []
    ensures valid ==>
      && |effects| >= 4
      && effects[0] == DisableButton
      && effects[1] == Post(FormData(inputs))
      && effects[|effects| - 1] == EnableButton
      && (ShowSuccess in effects <==> reply == Answered(true))
      && (ResetForm in effects <==> reply == Answered(true))
      && (AlertFailure in effects <==> reply != Answered(true))
  {
    var displays;
    valid, displays := ValidateForm(inputs);
    if !valid {
      return valid, [];
    }
    effects := [DisableButton, Post(FormData(inputs))];
    if reply == Answered(true) {
      effects := effects + [ShowSuccess, ResetForm];
    } else {
      effects := effects + [AlertFailure];
    }
    effects := effects + [EnableButton];
  }
}
