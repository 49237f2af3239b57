/** Expression templates as `Select` uses them: the `compact` whitespace
    collapse (`re.sub("[\s\n]+", ' ', s)`) and named-placeholder
    substitution by Python 2.7's `str.format(**replacements)`, restricted
    to `{label}` fields and the `{{` / `}}` brace escapes. */
module Template {
  import opened Results
  import Strings

  /** One unit of a scanned template: a literal character (after brace
      unescaping) or a replacement field with its name. */
  datatype Piece = Char(c: char) | Field(name: string)

  /** The pieces Python's format-string iterator yields before it stops,
      and the fault it stops on, if any. */
  datatype Scan = Scan(pieces: seq<Piece>, fault: Option<string>)

  const SingleCloseBrace := "Single '}' encountered in format string"
  const SingleOpenBrace := "Single '{' encountered in format string"
  const UnmatchedOpenBrace := "unmatched '{' in format"

  function Cons(p: Piece, rest: Scan): Scan {
    Scan([p] + rest.pieces, rest.fault)
  }

  /** The index of the brace that closes a field whose text starts at `i`,
      counting nested braces as Python's iterator does. */
  function FieldClose(t: string, i: nat, depth: nat): (r: Option<nat>)
    requires i <= |t|
    requires depth >= 1
    ensures r.Some? ==> i <= r.value < |t| && t[r.value] == '}'
    decreases |t| - i
  {
    if i == |t| then None
    else if t[i] == '{' then FieldClose(t, i + 1, depth + 1)
    else if t[i] == '}' then (if depth == 1 then Some(i) else FieldClose(t, i + 1, depth - 1))
    else FieldClose(t, i + 1, depth)
  }

  /** What the scanner does at the front of the remaining template: emit
      one piece that spans `width` characters, stop on a fault, or finish. */
  datatype Step = Emit(piece: Piece, width: nat) | Stop(fault: string) | Done

  function NextStep(t: string): (r: Step)
    ensures r.Emit? ==> 1 <= r.width <= |t|
    ensures r.Done? <==> |t| == 0
  {
    if |t| == 0 then Done
    else if t[0] == '{' then
      if |t| == 1 then Stop(SingleOpenBrace)
      else if t[1] == '{' then Emit(Char('{'), 2)
      else
        match FieldClose(t, 1, 1)
        case None => Stop(UnmatchedOpenBrace)
        case Some(j) => Emit(Field(t[1..j]), j + 1)
    else if t[0] == '}' then
      if |t| >= 2 && t[1] == '}' then Emit(Char('}'), 2)
      else Stop(SingleCloseBrace)
    else Emit(Char(t[0]), 1)
  }

  /** Left-to-right scan of a template into pieces. */
  function ScanTemplate(t: string): Scan
    decreases |t|
  {
    match NextStep(t)
    case Done => Scan([], None)
    case Stop(f) => Scan([], Some(f))
    case Emit(p, w) => Cons(p, ScanTemplate(t[w..]))
  }

  /** The template text a piece is written as. */
  function PieceText(p: Piece): string {
    match p
    case Char(c) => if c == '{' then "{{" else if c == '}' then "}}" else [c]
    case Field(l) => "{" + l + "}"
  }

  /** Writes pieces back as template text: the inverse of scanning. */
  function Unscan(ps: seq<Piece>): string
    decreases |ps|
  {
    if |ps| == 0 then "" else PieceText(ps[0]) + Unscan(ps[1..])
  }

  predicate BraceFree(s: string) {
    '{' !in s && '}' !in s
  }

  /** An emitted piece is written exactly as the text it was scanned from. */
  lemma StepText(t: string)
    requires NextStep(t).Emit?
    ensures PieceText(NextStep(t).piece) == t[..NextStep(t).width]
  {
    var st := NextStep(t);
    if t[0] == '{' && t[1] != '{' {
      var j := FieldClose(t, 1, 1).value;
      assert t[..j + 1] == "{" + t[1..j] + "}";
    }
  }

  /** A template that scans without a fault is exactly the text of its
      pieces. */
  lemma {:induction false} ScanUnscan(t: string)
    requires ScanTemplate(t).fault.None?
    ensures Unscan(ScanTemplate(t).pieces) == t
    decreases |t|
  {
    var st := NextStep(t);
    if st.Emit? {
      var rest := ScanTemplate(t[st.width..]);
      ScanUnscan(t[st.width..]);
      StepText(t);
      var ps := ScanTemplate(t).pieces;
      assert ps == [st.piece] + rest.pieces;
      assert ps[1..] == rest.pieces;
      SplitAt(t, st.width);
    }
  }

  lemma SplitAt(t: string, w: nat)
    requires w <= |t|
    ensures t[..w] + t[w..] == t
  {
  }

  lemma {:induction false} FieldCloseAt(t: string, i: nat, k: nat)
    requires i + k < |t|
    requires BraceFree(t[i..i + k])
    requires t[i + k] == '}'
    ensures FieldClose(t, i, 1) == Some(i + k)
    decreases k
  {
    if k > 0 {
      assert t[i] == t[i..i + k][0];
      assert t[i + 1..i + k] == t[i..i + k][1..];
      FieldCloseAt(t, i + 1, k - 1);
    }
  }

  /** A piece whose label is brace-free is scanned back from its text,
      whatever follows it. */
  lemma PieceStep(p: Piece, rest: string)
    requires p.Field? ==> BraceFree(p.name)
    ensures NextStep(PieceText(p) + rest) == Emit(p, |PieceText(p)|)
  {
    var t := PieceText(p) + rest;
    if p.Field? {
      var l := p.name;
      assert t == "{" + l + "}" + rest;
      assert t[1..1 + |l|] == l;
      FieldCloseAt(t, 1, |l|);
      if |l| > 0 {
        assert t[1] == l[0];
      }
    }
  }

  /** Pieces whose labels are brace-free scan back to themselves, with no
      fault. */
  lemma {:induction false} UnscanScan(ps: seq<Piece>)
    requires forall i :: 0 <= i < |ps| && ps[i].Field? ==> BraceFree(ps[i].name)
    ensures ScanTemplate(Unscan(ps)) == Scan(ps, None)
    decreases |ps|
  {
    if |ps| > 0 {
      var tail := ps[1..];
      calc {
        ScanTemplate(Unscan(ps));
        ScanTemplate(PieceText(ps[0]) + Unscan(tail));
        { ScanPiece(ps[0], Unscan(tail)); }
        Cons(ps[0], ScanTemplate(Unscan(tail)));
        { TailBraceFree(ps); UnscanScan(tail); }
        Cons(ps[0], Scan(tail, None));
        { assert [ps[0]] + tail == ps; }
        Scan(ps, None);
      }
    }
  }

  lemma TailBraceFree(ps: seq<Piece>)
    requires |ps| > 0
    requires forall i :: 0 <= i < |ps| && ps[i].Field? ==> BraceFree(ps[i].name)
    ensures forall i :: 0 <= i < |ps| - 1 && ps[1..][i].Field? ==> BraceFree(ps[1..][i].name)
  {
    forall i | 0 <= i < |ps| - 1 && ps[1..][i].Field?
      ensures BraceFree(ps[1..][i].name)
    {
      assert ps[1..][i] == ps[i + 1];
    }
  }

  /** Scanning a piece's text followed by more text emits that piece and
      goes on with the rest. */
  lemma ScanPiece(p: Piece, rest: string)
    requires p.Field? ==> BraceFree(p.name)
    ensures ScanTemplate(PieceText(p) + rest) == Cons(p, ScanTemplate(rest))
  {
    var t := PieceText(p) + rest;
    PieceStep(p, rest);
    assert t[|PieceText(p)|..] == rest;
  }

  /** Python 2.7 treats an empty field name or one made only of digits as
      a positional argument; `format(**replacements)` has none. */
  predicate IsPositional(name: string) {
    forall i :: 0 <= i < |name| ==> '0' <= name[i] <= '9'
  }

  predicate Bindable(name: string, repl: map<string, string>) {
    !IsPositional(name) && name in repl
  }

  /** The exception Python raises for a field it cannot fill. */
  function FieldError(name: string): PyError {
    if IsPositional(name) then IndexError else KeyError(name)
  }

  /** Fills the scanned pieces in order; the first field that cannot be
      filled raises. */
  function Substitute(ps: seq<Piece>, repl: map<string, string>): (r: Result<string, PyError>)
    ensures r.Ok? <==> forall i :: 0 <= i < |ps| && ps[i].Field? ==> Bindable(ps[i].name, repl)
    ensures r.Err? ==> exists i :: 0 <= i < |ps| && ps[i].Field? && !Bindable(ps[i].name, repl)
                                   && r.error == FieldError(ps[i].name)
                                   && forall j :: 0 <= j < i && ps[j].Field? ==> Bindable(ps[j].name, repl)
    decreases |ps|
  {
    if |ps| == 0 then Ok("")
    else
      var rest := Substitute(ps[1..], repl);
      assert forall i :: 1 <= i < |ps| ==> ps[i] == ps[1..][i - 1];
      match ps[0]
      case Char(c) => (if rest.Ok? then Ok([c] + rest.value) else rest)
      case Field(l) =>
        if !Bindable(l, repl) then Err(FieldError(l))
        else if rest.Ok? then Ok(repl[l] + rest.value)
        else rest
  }

  /** `template.format(**repl)`: fields are filled left to right, then a
      malformed tail, if any, raises `ValueError`. An unbound name is
      never replaced by a blank: it raises. */
  function Format(t: string, repl: map<string, string>): (r: Result<string, PyError>)
    ensures var sc := ScanTemplate(t);
      r.Ok? <==> sc.fault.None? && forall i :: 0 <= i < |sc.pieces| && sc.pieces[i].Field? ==> Bindable(sc.pieces[i].name, repl)
    ensures r.Err? && r.error.KeyError? ==>
      var sc := ScanTemplate(t);
      exists i :: 0 <= i < |sc.pieces| && sc.pieces[i] == Field(r.error.key) && r.error.key !in repl
  {
    var sc := ScanTemplate(t);
    var s :- Substitute(sc.pieces, repl);
    if sc.fault.Some? then Err(ValueError(sc.fault.value)) else Ok(s)
  }

  /** Each character of `t` as a literal piece. */
  function Chars(t: string): (ps: seq<Piece>)
    ensures |ps| == |t| && forall i :: 0 <= i < |t| ==> ps[i] == Char(t[i])
  {
    seq(|t|, i requires 0 <= i < |t| => Char(t[i]))
  }

  lemma {:induction false} ScanBraceFree(t: string)
    requires BraceFree(t)
    ensures ScanTemplate(t) == Scan(Chars(t), None)
    decreases |t|
  {
    if |t| > 0 {
      var tail := t[1..];
      assert BraceFree(tail);
      assert t[0] != '{' && t[0] != '}';
      calc {
        ScanTemplate(t);
        { assert t == PieceText(Char(t[0])) + tail; }
        ScanTemplate(PieceText(Char(t[0])) + tail);
        { ScanPiece(Char(t[0]), tail); }
        Cons(Char(t[0]), ScanTemplate(tail));
        { ScanBraceFree(tail); }
        Cons(Char(t[0]), Scan(Chars(tail), None));
        { assert [Char(t[0])] + Chars(tail) == Chars(t); }
        Scan(Chars(t), None);
      }
    }
  }

  lemma {:induction false} SubstituteChars(t: string, repl: map<string, string>)
    ensures Substitute(Chars(t), repl) == Ok(t)
    decreases |t|
  {
    var ps := Chars(t);
    if |t| > 0 {
      SubstituteChars(t[1..], repl);
      assert ps[1..] == Chars(t[1..]);
      assert t == [t[0]] + t[1..];
    }
  }

  /** Brace-free text formats to itself whatever the replacements. */
  lemma FormatLiteral(t: string, repl: map<string, string>)
    requires BraceFree(t)
    ensures Format(t, repl) == Ok(t)
  {
    ScanBraceFree(t);
    SubstituteChars(t, repl);
  }

  lemma {:induction false} UnscanAppend(ps: seq<Piece>, qs: seq<Piece>)
    ensures Unscan(ps + qs) == Unscan(ps) + Unscan(qs)
    decreases |ps|
  {
    if |ps| > 0 {
      assert (ps + qs)[1..] == ps[1..] + qs;
      assert (ps + qs)[0] == ps[0];
      UnscanAppend(ps[1..], qs);
      var h := PieceText(ps[0]);
      assert h + (Unscan(ps[1..]) + Unscan(qs)) == (h + Unscan(ps[1..])) + Unscan(qs);
    } else {
      assert ps + qs == qs;
    }
  }

  lemma {:induction false} UnscanChars(t: string)
    requires BraceFree(t)
    ensures Unscan(Chars(t)) == t
    decreases |t|
  {
    if |t| > 0 {
      assert Chars(t)[1..] == Chars(t[1..]);
      UnscanChars(t[1..]);
      assert t == [t[0]] + t[1..];
    }
  }

  lemma {:induction false} SubstituteAppend(ps: seq<Piece>, qs: seq<Piece>, repl: map<string, string>)
    requires Substitute(ps, repl).Ok? && Substitute(qs, repl).Ok?
    ensures Substitute(ps + qs, repl) == Ok(Substitute(ps, repl).value + Substitute(qs, repl).value)
    decreases |ps|
  {
    if |ps| > 0 {
      assert (ps + qs)[1..] == ps[1..] + qs;
      assert (ps + qs)[0] == ps[0];
      var x := Substitute(ps[1..], repl).value;
      var y := Substitute(qs, repl).value;
      SubstituteAppend(ps[1..], qs, repl);
      match ps[0]
      case Char(c) =>
        assert Substitute(ps, repl) == Ok([c] + x);
        assert Substitute(ps + qs, repl) == Ok([c] + (x + y));
        assert [c] + (x + y) == ([c] + x) + y;
      case Field(l) =>
        assert Substitute(ps, repl) == Ok(repl[l] + x);
        assert Substitute(ps + qs, repl) == Ok(repl[l] + (x + y));
        assert repl[l] + (x + y) == (repl[l] + x) + y;
    } else {
      assert ps + qs == qs;
      assert Substitute(ps, repl).value + Substitute(qs, repl).value == Substitute(qs, repl).value;
    }
  }

  lemma FieldScan(a: string, name: string, b: string)
    requires BraceFree(a) && BraceFree(name) && BraceFree(b)
    ensures ScanTemplate(a + "{" + name + "}" + b) == Scan(Chars(a) + [Field(name)] + Chars(b), None)
  {
    var ps := Chars(a) + [Field(name)] + Chars(b);
    UnscanAppend(Chars(a) + [Field(name)], Chars(b));
    UnscanAppend(Chars(a), [Field(name)]);
    UnscanChars(a);
    UnscanChars(b);
    assert Unscan([Field(name)]) == "{" + name + "}" + "";
    FieldText(a, name, b, Unscan(Chars(a)), Unscan([Field(name)]), Unscan(Chars(b)));
    UnscanScan(ps);
  }

  lemma FieldText(a: string, name: string, b: string, x: string, y: string, z: string)
    requires x == a && y == "{" + name + "}" + "" && z == b
    ensures x + y + z == a + "{" + name + "}" + b
  {
  }

  lemma FieldSubstitute(a: string, name: string, b: string, repl: map<string, string>)
    requires Bindable(name, repl)
    ensures Substitute(Chars(a) + [Field(name)] + Chars(b), repl) == Ok(a + repl[name] + b)
  {
    SubstituteChars(a, repl);
    SubstituteChars(b, repl);
    assert Substitute([Field(name)], repl) == Ok(repl[name] + "");
    assert repl[name] + "" == repl[name];
    SubstituteAppend(Chars(a), [Field(name)], repl);
    SubstituteAppend(Chars(a) + [Field(name)], Chars(b), repl);
  }

  /** A template of one named field between literal texts is the texts
      around the field's replacement. */
  lemma FormatField(a: string, name: string, b: string, repl: map<string, string>)
    requires BraceFree(a) && BraceFree(name) && BraceFree(b) && Bindable(name, repl)
    ensures Format(a + "{" + name + "}" + b, repl) == Ok(a + repl[name] + b)
  {
    FieldScan(a, name, b);
    FieldSubstitute(a, name, b, repl);
  }

  /** A template of one field that cannot be filled raises that field's
      exception: an unbound name is never formatted as a blank. */
  lemma FormatUnbound(a: string, name: string, b: string, repl: map<string, string>)
    requires BraceFree(a) && BraceFree(name) && BraceFree(b) && !Bindable(name, repl)
    ensures Format(a + "{" + name + "}" + b, repl) == Err(FieldError(name))
  {
    FieldScan(a, name, b);
    var ps := Chars(a) + [Field(name)] + Chars(b);
    assert ps[|a|] == Field(name);
    var r := Substitute(ps, repl);
    var i :| 0 <= i < |ps| && ps[i].Field? && !Bindable(ps[i].name, repl) && r.error == FieldError(ps[i].name);
    assert i == |a|;
  }

  /** A character property that holds of every literal character and of
      every replacement holds of the whole formatted text. */
  lemma {:induction false} SubstitutePreserves(ps: seq<Piece>, repl: map<string, string>, P: char -> bool)
    requires forall i :: 0 <= i < |ps| && ps[i].Char? ==> P(ps[i].c)
    requires forall l :: l in repl ==> forall k :: 0 <= k < |repl[l]| ==> P(repl[l][k])
    requires Substitute(ps, repl).Ok?
    ensures forall k :: 0 <= k < |Substitute(ps, repl).value| ==> P(Substitute(ps, repl).value[k])
    decreases |ps|
  {
    if |ps| > 0 {
      assert forall i :: 1 <= i < |ps| ==> ps[i] == ps[1..][i - 1];
      SubstitutePreserves(ps[1..], repl, P);
    }
  }

  /** Every literal character a scan yields appears in the text the
      pieces are written as. */
  lemma {:induction false} UnscanHas(ps: seq<Piece>, i: nat)
    requires i < |ps| && ps[i].Char?
    ensures ps[i].c in Unscan(ps)
    decreases i
  {
    if i == 0 {
      assert PieceText(ps[0])[0] == ps[0].c;
      assert Unscan(ps)[0] == ps[0].c;
    } else {
      assert ps[1..][i - 1] == ps[i];
      UnscanHas(ps[1..], i - 1);
      var h := PieceText(ps[0]);
      var r := Unscan(ps[1..]);
      var k :| 0 <= k < |r| && r[k] == ps[i].c;
      assert (h + r)[|h| + k] == ps[i].c;
    }
  }

  /** A template without a line break, filled with replacements without
      one, formats to text without one. */
  lemma FormatNoNewline(t: string, repl: map<string, string>)
    requires '\n' !in t && Format(t, repl).Ok?
    requires forall l :: l in repl ==> '\n' !in repl[l]
    ensures '\n' !in Format(t, repl).value
  {
    var sc := ScanTemplate(t);
    ScanUnscan(t);
    var ps := sc.pieces;
    forall i | 0 <= i < |ps| && ps[i].Char? ensures ps[i].c != '\n' {
      UnscanHas(ps, i);
    }
    var P := (c: char) => c != '\n';
    SubstitutePreserves(ps, repl, P);
    var v := Format(t, repl).value;
    assert v == Substitute(ps, repl).value;
    assert forall k :: 0 <= k < |v| ==> P(v[k]);
  }

  // ---------------------------------------------------------------------
  // The `compact` option

  /** Python 2's `\s` without the UNICODE flag: space, tab, newline,
      carriage return, form feed and vertical tab. */
  predicate IsWhitespace(c: char) {
    c == ' ' || c == '\t' || c == '\n' || c == '\r' || c == '\U{000C}' || c == '\U{000B}'
  }

  /** The non-whitespace characters of `s`, in order. */
  function NonWhitespace(s: string): string
    decreases |s|
  {
    if |s| == 0 then ""
    else if IsWhitespace(s[0]) then NonWhitespace(s[1..])
    else [s[0]] + NonWhitespace(s[1..])
  }

  /** Drops a leading run of whitespace. */
  function SkipWhitespace(s: string): (r: string)
    ensures |r| <= |s| && r == s[|s| - |r|..]
    ensures forall i :: 0 <= i < |s| - |r| ==> IsWhitespace(s[i])
    ensures |r| > 0 ==> !IsWhitespace(r[0])
    ensures NonWhitespace(r) == NonWhitespace(s)
    decreases |s|
  {
    if |s| > 0 && IsWhitespace(s[0]) then SkipWhitespace(s[1..]) else s
  }

  /** A string in which every whitespace character is a space and no two
      whitespace characters are adjacent. */
  predicate IsCompact(s: string) {
    && (forall i :: 0 <= i < |s| && IsWhitespace(s[i]) ==> s[i] == ' ')
    && (forall i :: 0 <= i < |s| - 1 ==> !(IsWhitespace(s[i]) && IsWhitespace(s[i + 1])))
  }

  /** `re.sub("[\s\n]+", ' ', s)`: each maximal whitespace run becomes one
      space. Nothing is trimmed: a template that starts or ends with
      whitespace still starts or ends with a space. */
  function Compact(s: string): (r: string)
    ensures IsCompact(r)
    ensures NonWhitespace(r) == NonWhitespace(s)
    ensures |r| <= |s|
    ensures |s| > 0 ==> |r| > 0 && (r[0] == ' ' <==> IsWhitespace(s[0]))
    ensures |s| > 0 ==> (r[|r| - 1] == ' ' <==> IsWhitespace(s[|s| - 1]))
    decreases |s|
  {
    if |s| == 0 then ""
    else if IsWhitespace(s[0]) then
      var c := Compact(SkipWhitespace(s[1..]));
      ConsCompact(' ', c);
      " " + c
    else
      var c := Compact(s[1..]);
      ConsCompact(s[0], c);
      [s[0]] + c
  }

  /** Putting a character in front of compact text keeps it compact, unless
      it is whitespace before whitespace. */
  lemma ConsCompact(x: char, c: string)
    requires IsCompact(c)
    requires IsWhitespace(x) ==> x == ' ' && (|c| == 0 || !IsWhitespace(c[0]))
    ensures IsCompact([x] + c)
    ensures NonWhitespace([x] + c) == (if IsWhitespace(x) then "" else [x]) + NonWhitespace(c)
  {
    var r := [x] + c;
    assert r[1..] == c;
    forall i | 0 <= i < |r| - 1 ensures !(IsWhitespace(r[i]) && IsWhitespace(r[i + 1])) {
      if i > 0 { assert r[i] == c[i - 1] && r[i + 1] == c[i]; }
    }
    forall i | 0 <= i < |r| && IsWhitespace(r[i]) ensures r[i] == ' ' {
      if i > 0 { assert r[i] == c[i - 1]; }
    }
  }

  /** Compact text is left as it is. */
  lemma {:induction false} CompactIdentity(s: string)
    requires IsCompact(s)
    ensures Compact(s) == s
    decreases |s|
  {
    if |s| > 0 {
      assert IsCompact(s[1..]) by {
        assert forall i :: 0 <= i < |s| - 1 ==> s[1..][i] == s[i + 1];
      }
      if IsWhitespace(s[0]) && |s| > 1 {
        assert !IsWhitespace(s[1]);
        assert SkipWhitespace(s[1..]) == s[1..];
      }
      CompactIdentity(s[1..]);
      assert s == [s[0]] + s[1..];
    }
  }

  /** Compacting twice is the same as compacting once. */
  lemma CompactIdempotent(s: string)
    ensures Compact(Compact(s)) == Compact(s)
  {
    CompactIdentity(Compact(s));
  }

  /** The non-whitespace characters of a string are the ones it keeps
      when its whitespace is dropped. */
  lemma {:induction false} NonWhitespaceHas(s: string, c: char)
    requires !IsWhitespace(c)
    ensures c in NonWhitespace(s) <==> c in s
    decreases |s|
  {
    if |s| > 0 {
      NonWhitespaceHas(s[1..], c);
      assert s == [s[0]] + s[1..];
    }
  }

  /** Compacting keeps every non-whitespace character and adds none. */
  lemma CompactKeeps(s: string, c: char)
    requires !IsWhitespace(c)
    ensures c in Compact(s) <==> c in s
  {
    NonWhitespaceHas(s, c);
    NonWhitespaceHas(Compact(s), c);
  }

  /** A non-whitespace character passes through compaction unchanged. */
  lemma CompactChar(c: char, rest: string)
    requires !IsWhitespace(c)
    ensures Compact([c] + rest) == [c] + Compact(rest)
  {
    assert ([c] + rest)[1..] == rest;
  }

  lemma Unfront(w: string, rest: string)
    requires |w| > 0
    ensures [w[0]] + (w[1..] + rest) == w + rest
  {
    assert w == [w[0]] + w[1..];
  }

  /** Text without whitespace passes through compaction unchanged. */
  lemma {:induction false} CompactWord(w: string, rest: string)
    requires forall i :: 0 <= i < |w| ==> !IsWhitespace(w[i])
    ensures Compact(w + rest) == w + Compact(rest)
    decreases |w|
  {
    if |w| > 0 {
      var tail := w[1..] + rest;
      Unfront(w, rest);
      CompactChar(w[0], tail);
      assert forall i :: 0 <= i < |w[1..]| ==> w[1..][i] == w[i + 1];
      CompactWord(w[1..], rest);
      Unfront(w, Compact(rest));
    } else {
      assert w + rest == rest;
    }
  }

  lemma {:induction false} SkipRun(w: string, rest: string)
    requires forall i :: 0 <= i < |w| ==> IsWhitespace(w[i])
    requires |rest| > 0 ==> !IsWhitespace(rest[0])
    ensures SkipWhitespace(w + rest) == rest
    decreases |w|
  {
    if |w| > 0 {
      assert (w + rest)[0] == w[0];
      assert (w + rest)[1..] == w[1..] + rest;
      SkipRun(w[1..], rest);
    } else {
      assert w + rest == rest;
    }
  }

  /** A whitespace run becomes one space. */
  lemma CompactRun(w: string, rest: string)
    requires |w| > 0 && forall i :: 0 <= i < |w| ==> IsWhitespace(w[i])
    requires |rest| > 0 ==> !IsWhitespace(rest[0])
    ensures Compact(w + rest) == " " + Compact(rest)
  {
    assert (w + rest)[0] == w[0];
    assert (w + rest)[1..] == w[1..] + rest;
    SkipRun(w[1..], rest);
  }

  predicate IsWord(w: string) {
    |w| > 0 && forall i :: 0 <= i < |w| ==> !IsWhitespace(w[i])
  }

  predicate IsRun(w: string) {
    |w| > 0 && forall i :: 0 <= i < |w| ==> IsWhitespace(w[i])
  }

  /** Words separated by whitespace runs: `words[0] + runs[0] + words[1] + ...`. */
  function Interleave(words: seq<string>, runs: seq<string>): string
    requires |words| == |runs| + 1
    decreases |runs|
  {
    if |runs| == 0 then words[0] else words[0] + runs[0] + Interleave(words[1..], runs[1..])
  }

  /** Compacting text made of words and whitespace runs leaves the words
      joined by single spaces, whatever the runs were. */
  lemma {:induction false} CompactInterleave(words: seq<string>, runs: seq<string>)
    requires |words| == |runs| + 1
    requires forall i :: 0 <= i < |words| ==> IsWord(words[i])
    requires forall i :: 0 <= i < |runs| ==> IsRun(runs[i])
    ensures Compact(Interleave(words, runs)) == Strings.Join(" ", words)
    decreases |runs|
  {
    if |runs| == 0 {
      CompactWord(words[0], "");
      assert words[0] + "" == words[0];
    } else {
      var rest := Interleave(words[1..], runs[1..]);
      assert IsWord(words[1..][0]);
      assert |rest| > 0 && rest[0] == words[1][0] by { InterleaveStart(words[1..], runs[1..]); }
      CompactStep(words[0], runs[0], rest);
      CompactInterleave(words[1..], runs[1..]);
    }
  }

  /** A word and the whitespace run after it become the word and one
      space. */
  lemma CompactStep(w: string, r: string, rest: string)
    requires IsWord(w) && IsRun(r) && |rest| > 0 && !IsWhitespace(rest[0])
    ensures Compact(w + r + rest) == w + " " + Compact(rest)
  {
    Regroup(w, r, rest);
    CompactWord(w, r + rest);
    CompactRun(r, rest);
    Regroup(w, " ", Compact(rest));
  }

  /** Dropping leading whitespace stops at text that does not start with
      whitespace. */
  lemma {:induction false} SkipAppend(x: string, y: string)
    requires |y| > 0 && !IsWhitespace(y[0])
    ensures SkipWhitespace(x + y) == SkipWhitespace(x) + y
    decreases |x|
  {
    if |x| == 0 {
      assert x + y == y;
    } else {
      assert (x + y)[0] == x[0];
      if IsWhitespace(x[0]) {
        assert (x + y)[1..] == x[1..] + y;
        SkipAppend(x[1..], y);
      }
    }
  }

  /** Compaction works piece by piece on each side of a character that
      is not whitespace. */
  lemma {:induction false} CompactSplit(x: string, y: string)
    requires |y| > 0 && !IsWhitespace(y[0])
    ensures Compact(x + y) == Compact(x) + Compact(y)
    decreases |x|
  {
    if |x| == 0 {
      assert x + y == y;
    } else {
      assert (x + y)[0] == x[0];
      assert (x + y)[1..] == x[1..] + y;
      if IsWhitespace(x[0]) {
        var s := SkipWhitespace(x[1..]);
        SkipAppend(x[1..], y);
        CompactSplit(s, y);
        Regroup(" ", Compact(s), Compact(y));
      } else {
        CompactSplit(x[1..], y);
        Regroup([x[0]], Compact(x[1..]), Compact(y));
      }
    }
  }

  /** Compaction leaves a word in the middle of a text as it is and
      compacts the text on either side of it on its own. */
  lemma CompactAround(a: string, f: string, b: string)
    requires IsWord(f)
    ensures Compact(a + f + b) == Compact(a) + f + Compact(b)
  {
    Regroup(a, f, b);
    assert (f + b)[0] == f[0];
    CompactSplit(a, f + b);
    CompactWord(f, b);
    Regroup(Compact(a), f, Compact(b));
  }

  /** A placeholder named without whitespace is a word. */
  lemma BracedWord(name: string)
    requires forall i :: 0 <= i < |name| ==> !IsWhitespace(name[i])
    ensures IsWord("{" + name + "}")
  {
    var f := "{" + name + "}";
    forall i | 0 <= i < |f| ensures !IsWhitespace(f[i]) {
      if 0 < i < |f| - 1 { assert f[i] == name[i - 1]; }
    }
  }

  lemma FieldGroup(a: string, name: string, b: string)
    ensures a + "{" + name + "}" + b == a + ("{" + name + "}") + b
  {
  }

  /** With `compact`, only the literal text around a placeholder changes:
      the placeholder itself, named without whitespace, is kept whole. */
  lemma CompactFieldText(a: string, name: string, b: string)
    requires forall i :: 0 <= i < |name| ==> !IsWhitespace(name[i])
    ensures Compact(a + "{" + name + "}" + b) == Compact(a) + "{" + name + "}" + Compact(b)
  {
    BracedWord(name);
    FieldGroup(a, name, b);
    CompactAround(a, "{" + name + "}", b);
    FieldGroup(Compact(a), name, Compact(b));
  }

  lemma InterleaveStart(words: seq<string>, runs: seq<string>)
    requires |words| == |runs| + 1 && |words[0]| > 0
    ensures |Interleave(words, runs)| > 0 && Interleave(words, runs)[0] == words[0][0]
  {
  }

  lemma Regroup(a: string, b: string, c: string)
    ensures a + b + c == a + (b + c)
  {
  }

  // ---------------------------------------------------------------------
  // Templates with several placeholders

  /** The template `lits[0]{names[0]}lits[1]...{names[n-1]}lits[n]`. */
  function Fill(lits: seq<string>, names: seq<string>): string
    requires |lits| == |names| + 1
    decreases |names|
  {
    if |names| == 0 then lits[0]
    else lits[0] + "{" + names[0] + "}" + Fill(lits[1..], names[1..])
  }

  /** The pieces such a template is written from. */
  function FillPieces(lits: seq<string>, names: seq<string>): (ps: seq<Piece>)
    requires |lits| == |names| + 1
    ensures forall i :: 0 <= i < |ps| && ps[i].Field? ==> ps[i].name in names
    decreases |names|
  {
    if |names| == 0 then Chars(lits[0])
    else Chars(lits[0]) + [Field(names[0])] + FillPieces(lits[1..], names[1..])
  }

  /** The text the template is meant to become: each literal text as it
      is and each placeholder replaced by its binding. */
  function Filled(lits: seq<string>, names: seq<string>, repl: map<string, string>): string
    requires |lits| == |names| + 1 && forall i :: 0 <= i < |names| ==> names[i] in repl
    decreases |names|
  {
    if |names| == 0 then lits[0]
    else lits[0] + repl[names[0]] + Filled(lits[1..], names[1..], repl)
  }

  predicate AllBraceFree(texts: seq<string>) {
    forall i :: 0 <= i < |texts| ==> BraceFree(texts[i])
  }

  /** Every name can be filled from the replacements. */
  predicate AllBindable(names: seq<string>, repl: map<string, string>) {
    forall i :: 0 <= i < |names| ==> Bindable(names[i], repl)
  }

  lemma {:induction false} FillUnscan(lits: seq<string>, names: seq<string>)
    requires |lits| == |names| + 1 && AllBraceFree(lits)
    ensures Unscan(FillPieces(lits, names)) == Fill(lits, names)
    decreases |names|
  {
    UnscanChars(lits[0]);
    if |names| > 0 {
      var rest := FillPieces(lits[1..], names[1..]);
      FillUnscan(lits[1..], names[1..]);
      UnscanAppend(Chars(lits[0]) + [Field(names[0])], rest);
      UnscanAppend(Chars(lits[0]), [Field(names[0])]);
      assert Unscan([Field(names[0])]) == "{" + names[0] + "}" + "";
      FieldText(lits[0], names[0], Fill(lits[1..], names[1..]),
        Unscan(Chars(lits[0])), Unscan([Field(names[0])]), Unscan(rest));
    }
  }

  lemma {:induction false} FillSubstitute(lits: seq<string>, names: seq<string>, repl: map<string, string>)
    requires |lits| == |names| + 1 && AllBindable(names, repl)
    ensures Substitute(FillPieces(lits, names), repl) == Ok(Filled(lits, names, repl))
    decreases |names|
  {
    SubstituteChars(lits[0], repl);
    if |names| > 0 {
      var n := names[0];
      var rest := FillPieces(lits[1..], names[1..]);
      FillSubstitute(lits[1..], names[1..], repl);
      assert Substitute([Field(n)], repl) == Ok(repl[n] + "");
      assert repl[n] + "" == repl[n];
      SubstituteAppend(Chars(lits[0]), [Field(n)], repl);
      SubstituteAppend(Chars(lits[0]) + [Field(n)], rest, repl);
    }
  }

  /** A template of brace-free literal texts and named placeholders
      formats to the texts with each placeholder replaced, in order. */
  lemma FormatFields(lits: seq<string>, names: seq<string>, repl: map<string, string>)
    requires |lits| == |names| + 1 && AllBraceFree(lits) && AllBraceFree(names) && AllBindable(names, repl)
    ensures Format(Fill(lits, names), repl) == Ok(Filled(lits, names, repl))
  {
    var ps := FillPieces(lits, names);
    assert forall i :: 0 <= i < |ps| && ps[i].Field? ==> BraceFree(ps[i].name);
    FillUnscan(lits, names);
    UnscanScan(ps);
    FillSubstitute(lits, names, repl);
  }

  /** Each literal text compacted on its own. */
  function CompactEach(lits: seq<string>): (r: seq<string>)
    ensures |r| == |lits| && forall i :: 0 <= i < |lits| ==> r[i] == Compact(lits[i])
  {
    seq(|lits|, i requires 0 <= i < |lits| => Compact(lits[i]))
  }

  predicate Unspaced(name: string) {
    forall i :: 0 <= i < |name| ==> !IsWhitespace(name[i])
  }

  /** Compacting a template compacts each literal text on its own and
      leaves every placeholder named without whitespace whole. */
  lemma {:induction false} CompactFill(lits: seq<string>, names: seq<string>)
    requires |lits| == |names| + 1 && forall i :: 0 <= i < |names| ==> Unspaced(names[i])
    ensures Compact(Fill(lits, names)) == Fill(CompactEach(lits), names)
    decreases |names|
  {
    if |names| > 0 {
      var rest := Fill(lits[1..], names[1..]);
      CompactFieldText(lits[0], names[0], rest);
      CompactFill(lits[1..], names[1..]);
      assert CompactEach(lits)[1..] == CompactEach(lits[1..]);
    }
  }

  /** Compacted brace-free texts stay brace-free. */
  lemma CompactEachBraceFree(lits: seq<string>)
    requires AllBraceFree(lits)
    ensures AllBraceFree(CompactEach(lits))
  {
    forall i | 0 <= i < |lits| ensures BraceFree(CompactEach(lits)[i]) {
      CompactKeeps(lits[i], '{');
      CompactKeeps(lits[i], '}');
    }
  }
}
