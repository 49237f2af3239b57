/** The form validators of the map view settings: the colour and
    opacity checks and the membership checks against the resource's
    datastore fields and views. The field set and the view ids, which the
    plugin fetches through CKAN actions, are parameters. */
module Validators {
  import opened Results
  import Strings

  // ---------------------------------------------------------------------
  // colour_validator

  const ColourMessage :=
    "Colors must be formed of three or six RGB hex value, optionally preceded by a # sign (eg. #E55 or #F4A088)"

  predicate IsHexDigit(c: char) {
    ('0' <= c <= '9') || ('a' <= c <= 'f') || ('A' <= c <= 'F')
  }

  predicate AllHex(s: string) {
    forall i :: 0 <= i < |s| ==> IsHexDigit(s[i])
  }

  /** The text after an optional leading `#`. */
  function AfterHash(s: string): string {
    if |s| > 0 && s[0] == '#' then s[1..] else s
  }

  /** The text before an optional final newline. */
  function BeforeNewline(s: string): string {
    if |s| > 0 && s[|s| - 1] == '\n' then s[..|s| - 1] else s
  }

  /** `re.match(u'^#?([0-9a-fA-F]{3}|[0-9a-fA-F]{6})$', s)`. Without the
      MULTILINE flag `$` matches at the end of the text and also just
      before a newline that ends it, so one final newline is accepted. */
  predicate MatchesColour(s: string) {
    var digits := BeforeNewline(AfterHash(s));
    (|digits| == 3 || |digits| == 6) && AllHex(digits)
  }

  /** One way of writing a colour the pattern describes: an optional `#`,
      three or six hex digits, and an optional final newline. */
  predicate ColourForm(s: string, hash: bool, digits: string, newline: bool) {
    s == (if hash then "#" else "") + digits + (if newline then "\n" else "")
    && (|digits| == 3 || |digits| == 6) && AllHex(digits)
  }

  /** The matcher accepts exactly the texts of that grammar. */
  lemma MatchesColourForms(s: string)
    ensures MatchesColour(s) <==> exists hash, digits, newline :: ColourForm(s, hash, digits, newline)
  {
    if MatchesColour(s) {
      var hash := |s| > 0 && s[0] == '#';
      var rest := AfterHash(s);
      var newline := |rest| > 0 && rest[|rest| - 1] == '\n';
      var digits := BeforeNewline(rest);
      if newline {
        assert rest == digits + "\n";
      }
      if hash {
        assert s == "#" + rest;
      }
      assert ColourForm(s, hash, digits, newline);
    }
    if exists hash, digits, newline :: ColourForm(s, hash, digits, newline) {
      var hash, digits, newline :| ColourForm(s, hash, digits, newline);
      FormDigits(s, hash, digits, newline);
    }
  }

  /** The digits of a colour form are what the matcher checks. */
  lemma FormDigits(s: string, hash: bool, digits: string, newline: bool)
    requires ColourForm(s, hash, digits, newline)
    ensures AfterHash(s) == digits + (if newline then "\n" else "")
    ensures BeforeNewline(AfterHash(s)) == digits
    ensures (|s| > 0 && s[0] == '#') == hash
    ensures |s| > 0 && (s[|s| - 1] == '\n') == newline
  {
    var tail := digits + (if newline then "\n" else "");
    assert IsHexDigit(digits[0]);
    if hash {
      assert s == "#" + tail;
      assert s[1..] == tail;
    } else {
      assert s == tail;
      assert s[0] == digits[0];
    }
    if newline {
      assert tail[..|tail| - 1] == digits;
    } else {
      assert IsHexDigit(digits[|digits| - 1]);
      assert tail == digits;
    }
    assert s[|s| - 1] == tail[|tail| - 1];
  }

  /** `colour_validator`: a colour without its `#` gets one; anything
      else the pattern rejects raises `Invalid`. */
  function ColourValidator(s: string): (r: Result<string, PyError>)
    ensures r.Ok? <==> MatchesColour(s)
    ensures r.Ok? ==> |r.value| > 0 && r.value[0] == '#' && r.value[1..] == AfterHash(s)
    ensures r.Err? ==> r.error == Invalid(ColourMessage)
  {
    if MatchesColour(s) then
      if s[0] != '#' then Ok("#" + s) else Ok(s)
    else
      Err(Invalid(ColourMessage))
  }

  /** A colour written in any accepted form comes back with its `#`, and
      with the final newline the pattern let through. */
  lemma ColourValidatorForm(s: string, hash: bool, digits: string, newline: bool)
    requires ColourForm(s, hash, digits, newline)
    ensures ColourValidator(s) == Ok("#" + digits + (if newline then "\n" else ""))
  {
    FormDigits(s, hash, digits, newline);
    var nl := if newline then "\n" else "";
    if hash {
      assert s == "#" + digits + nl;
    } else {
      assert s == digits + nl;
      assert "#" + s == "#" + digits + nl;
    }
  }

  /** Validating an accepted colour again returns it unchanged. */
  lemma ColourFixpoint(s: string)
    requires ColourValidator(s).Ok?
    ensures ColourValidator(ColourValidator(s).value) == ColourValidator(s)
  {
    var t := ColourValidator(s).value;
    assert t == "#" + AfterHash(s);
    assert AfterHash(t) == AfterHash(s);
  }

  /** A trailing newline is accepted and kept: `A5F\n` becomes `#A5F\n`,
      which is not a CSS colour. */
  lemma ColourNewline()
    ensures ColourValidator("A5F\n") == Ok("#A5F\n")
  {
    assert "A5F\n" == "" + "A5F" + "\n";
    assert "#A5F\n" == "#" + "A5F" + "\n";
    assert ColourForm("A5F\n", false, "A5F", true);
    ColourValidatorForm("A5F\n", false, "A5F", true);
  }

  /** Three and six digits, with and without `#`. */
  lemma ColourAccepted()
    ensures ColourValidator("A5F") == Ok("#A5F")
    ensures ColourValidator("#AA55FF") == Ok("#AA55FF")
  {
    assert "A5F" == "" + "A5F" + "";
    assert "#A5F" == "#" + "A5F" + "";
    ColourValidatorForm("A5F", false, "A5F", false);
    assert "#AA55FF" == "#" + "AA55FF" + "";
    ColourValidatorForm("#AA55FF", true, "AA55FF", false);
  }

  /** A letter beyond `F`, or a wrong length, is rejected. */
  lemma ColourRejected()
    ensures ColourValidator("#AG0") == Err(Invalid(ColourMessage))
    ensures ColourValidator("X") == Err(Invalid(ColourMessage))
  {
    assert AfterHash("#AG0") == "AG0";
    assert !IsHexDigit("AG0"[1]);
    assert AfterHash("X") == "X";
  }

  /** The colour check the pattern evidently means: the whole text is an
      optional `#` and three or six hex digits. */
  predicate IsColour(s: string) {
    var digits := AfterHash(s);
    (|digits| == 3 || |digits| == 6) && AllHex(digits)
  }

  function StrictColourValidator(s: string): (r: Result<string, PyError>)
    ensures r.Ok? <==> exists hash, digits :: ColourForm(s, hash, digits, false)
    ensures r.Ok? ==> |r.value| > 0 && r.value[0] == '#' && r.value[1..] == AfterHash(s)
    ensures r.Ok? ==> ColourValidator(s) == r
    ensures r.Err? ==> r.error == Invalid(ColourMessage)
  {
    StrictForms(s);
    if IsColour(s) then
      assert BeforeNewline(AfterHash(s)) == AfterHash(s);
      if s[0] != '#' then Ok("#" + s) else Ok(s)
    else
      Err(Invalid(ColourMessage))
  }

  lemma StrictForms(s: string)
    ensures IsColour(s) <==> exists hash, digits :: ColourForm(s, hash, digits, false)
  {
    if IsColour(s) {
      var hash := |s| > 0 && s[0] == '#';
      if hash {
        assert s == "#" + AfterHash(s);
      }
      assert ColourForm(s, hash, AfterHash(s), false);
    }
    if exists hash, digits :: ColourForm(s, hash, digits, false) {
      var hash, digits :| ColourForm(s, hash, digits, false);
      FormDigits(s, hash, digits, false);
    }
  }

  /** The strict check accepts exactly what the pattern accepts, except
      the texts ending in a newline. */
  lemma StrictColourDiffers(s: string)
    ensures StrictColourValidator(s).Ok? <==> ColourValidator(s).Ok? && !(|s| > 0 && s[|s| - 1] == '\n')
  {
    StrictForms(s);
    MatchesColourForms(s);
    if ColourValidator(s).Ok? && !(|s| > 0 && s[|s| - 1] == '\n') {
      var hash, digits, newline :| ColourForm(s, hash, digits, newline);
      FormDigits(s, hash, digits, newline);
    }
    if StrictColourValidator(s).Ok? {
      var hash, digits :| ColourForm(s, hash, digits, false);
      FormDigits(s, hash, digits, false);
    }
  }

  /** Accepted strict colours are fixpoints as well. */
  lemma StrictColourFixpoint(s: string)
    requires StrictColourValidator(s).Ok?
    ensures StrictColourValidator(StrictColourValidator(s).value) == StrictColourValidator(s)
  {
    var t := StrictColourValidator(s).value;
    assert t == "#" + AfterHash(s);
    assert AfterHash(t) == AfterHash(s);
    StrictForms(s);
    StrictForms(t);
    assert IsColour(t);
  }

  // ---------------------------------------------------------------------
  // float_01_validator

  const RangeMessage := "Must be a decimal number, between 0 and 1"

  /** A Python float: a finite number, not-a-number, or an infinity. */
  datatype Float = Finite(x: real) | NaN | Infinity(positive: bool)

  /** The outcome of `float(value)`: a number, or the `ValueError` the
      validator catches. */
  datatype FloatArg = Parsed(f: Float) | Unparsable

  /** IEEE `f < y`: false whenever `f` is not-a-number. */
  predicate Below(f: Float, y: real) {
    match f
    case Finite(x) => x < y
    case NaN => false
    case Infinity(positive) => !positive
  }

  /** IEEE `f > y`: false whenever `f` is not-a-number. */
  predicate Above(f: Float, y: real) {
    match f
    case Finite(x) => x > y
    case NaN => false
    case Infinity(positive) => positive
  }

  /** `float_01_validator` as written: `value < 0 or value > 1` raises.
      Not-a-number compares false both ways, so it is let through. */
  function Float01AsWritten(arg: FloatArg): (r: Result<Float, PyError>)
    ensures r.Ok? <==> arg.Parsed? && (arg.f.NaN? || (arg.f.Finite? && 0.0 <= arg.f.x <= 1.0))
    ensures r.Ok? ==> r.value == arg.f
    ensures r.Err? ==> r.error == Invalid(RangeMessage)
  {
    match arg
    case Unparsable => Err(Invalid(RangeMessage))
    case Parsed(f) =>
      if Below(f, 0.0) || Above(f, 1.0) then Err(Invalid(RangeMessage)) else Ok(f)
  }

  /** `float('nan')` passes the range check. */
  lemma NaNPasses()
    ensures Float01AsWritten(Parsed(NaN)) == Ok(NaN)
  {
  }

  /** The range check as intended: only numbers of the closed interval
      [0, 1] pass. */
  function Float01Validator(arg: FloatArg): (r: Result<Float, PyError>)
    ensures r.Ok? <==> arg.Parsed? && arg.f.Finite? && 0.0 <= arg.f.x <= 1.0
    ensures r.Ok? ==> r.value == arg.f
    ensures r.Err? ==> r.error == Invalid(RangeMessage)
  {
    match arg
    case Unparsable => Err(Invalid(RangeMessage))
    case Parsed(f) =>
      if f.NaN? || Below(f, 0.0) || Above(f, 1.0) then Err(Invalid(RangeMessage)) else Ok(f)
  }

  /** The two agree everywhere except on not-a-number. */
  lemma Float01Agrees(arg: FloatArg)
    ensures arg != Parsed(NaN) ==> Float01Validator(arg) == Float01AsWritten(arg)
    ensures Float01Validator(Parsed(NaN)) == Err(Invalid(RangeMessage))
  {
  }

  // ---------------------------------------------------------------------
  // is_datastore_field

  /** The submitted value: one field name or a list of them. */
  datatype FieldArg = One(field: string) | Many(fields: seq<string>)

  /** A value that is not a list is checked as a list of one. */
  function Passed(v: FieldArg): (r: seq<string>)
    ensures v.One? ==> r == [v.field]
    ensures v.Many? ==> r == v.fields
  {
    match v
    case One(f) => [f]
    case Many(fs) => fs
  }

  /** The passed fields that are not fields of the resource, in order. */
  function Unknown(passed: seq<string>, known: set<string>): (r: seq<string>)
    ensures forall i :: 0 <= i < |r| ==> r[i] in passed && r[i] !in known
    ensures forall f :: f in passed && f !in known ==> f in r
    ensures |r| <= |passed|
    decreases |passed|
  {
    if |passed| == 0 then []
    else
      var rest := Unknown(passed[1..], known);
      assert forall f :: f in passed[1..] ==> f in passed;
      assert forall f :: f in passed ==> f == passed[0] || f in passed[1..];
      if passed[0] in known then rest else [passed[0]] + rest
  }

  /** The unknown fields are gathered left to right: checking one more
      field adds it at the end exactly when it is unknown. */
  lemma {:induction false} UnknownAppend(passed: seq<string>, f: string, known: set<string>)
    ensures Unknown(passed + [f], known) == Unknown(passed, known) + (if f in known then [] else [f])
    decreases |passed|
  {
    if |passed| == 0 {
      assert passed + [f] == [f];
      assert [f][1..] == [];
    } else {
      assert (passed + [f])[1..] == passed[1..] + [f];
      assert (passed + [f])[0] == passed[0];
      UnknownAppend(passed[1..], f, known);
    }
  }

  function InvalidFields(unknown: seq<string>): PyError {
    Invalid("Invalid parameters: " + Strings.Join(",", unknown))
  }

  /** `is_datastore_field`: the value comes back unchanged when every
      passed field is a field of the resource; otherwise `Invalid` lists
      the unknown ones in the order they were passed, comma-separated. */
  function IsDatastoreField(value: FieldArg, known: set<string>): (r: Result<FieldArg, PyError>)
    ensures r.Ok? <==> forall f :: f in Passed(value) ==> f in known
    ensures r.Ok? ==> r.value == value
    ensures r.Err? ==> r.error == InvalidFields(Unknown(Passed(value), known)) && |Unknown(Passed(value), known)| > 0
  {
    var unknown := Unknown(Passed(value), known);
    if |unknown| > 0 then Err(InvalidFields(unknown)) else Ok(value)
  }

  /** Two known and two unknown fields: `Invalid parameters: goats,armpits`. */
  lemma MixedFields()
    ensures IsDatastoreField(Many(["beans", "goats", "lemons", "armpits"]), {"beans", "lemons"})
         == Err(Invalid("Invalid parameters: goats,armpits"))
  {
    var known := {"beans", "lemons"};
    assert "goats" !in known && "armpits" !in known;
    KnownUnknown("beans", "goats", "lemons", "armpits", known);
    var v := Many(["beans", "goats", "lemons", "armpits"]);
    assert Passed(v) == ["beans", "goats", "lemons", "armpits"];
    assert IsDatastoreField(v, known) == Err(InvalidFields(["goats", "armpits"]));
    MixedMessage();
  }

  lemma MixedMessage()
    ensures InvalidFields(["goats", "armpits"]) == Invalid("Invalid parameters: goats,armpits")
  {
    assert Strings.Join(",", ["armpits"]) == "armpits";
    assert Strings.Join(",", ["goats", "armpits"]) == "goats" + "," + "armpits";
    assert "Invalid parameters: goats,armpits" == "Invalid parameters: " + ("goats" + "," + "armpits");
  }

  lemma KnownUnknown(a: string, b: string, c: string, d: string, known: set<string>)
    requires a in known && b !in known && c in known && d !in known
    ensures Unknown([a, b, c, d], known) == [b, d]
  {
    assert [d][1..] == [];
    assert Unknown([d], known) == [d];
    assert [c, d][1..] == [d];
    assert Unknown([c, d], known) == [d];
    assert [b, c, d][1..] == [c, d];
    assert Unknown([b, c, d], known) == [b, d];
    assert [a, b, c, d][1..] == [b, c, d];
  }

  // ---------------------------------------------------------------------
  // is_view_id

  const ViewMessage := "Must be a view on the current resource"

  /** `is_view_id`: an absent or empty value passes as it is; any other
      value must be one of the resource's view ids. */
  function IsViewId(value: Option<string>, viewIds: seq<string>): (r: Result<Option<string>, PyError>)
    ensures r.Ok? <==> value.None? || value.value == "" || value.value in viewIds
    ensures r.Ok? ==> r.value == value
    ensures r.Err? ==> r.error == Invalid(ViewMessage)
  {
    match value
    case None => Ok(value)
    case Some(v) =>
      if v == "" || v in viewIds then Ok(value) else Err(Invalid(ViewMessage))
  }

  /** Whether a value passes depends on the view ids only through
      membership: their order and repetitions do not matter. */
  lemma IsViewIdMembership(value: Option<string>, a: seq<string>, b: seq<string>)
    requires forall v :: v in a <==> v in b
    ensures IsViewId(value, a) == IsViewId(value, b)
  {
  }
}
