/** The template helpers `mustache_wrapper` and `dwc_field_title`. */
module Helpers {
  import opened Results

  /** `mustache_wrapper`: the name inside a Mustache tag. */
  function MustacheWrapper(s: string): (r: string)
    ensures |r| == |s| + 4
    ensures r[..2] == "{{" && r[|r| - 2..] == "}}"
    ensures r[2..|r| - 2] == s
  {
    "{{" + s + "}}"
  }

  /** Different names give different tags. */
  lemma MustacheInjective(a: string, b: string)
    requires MustacheWrapper(a) == MustacheWrapper(b)
    ensures a == b
  {
    var r := MustacheWrapper(a);
    assert a == r[2..|r| - 2];
  }

  // ---------------------------------------------------------------------
  // dwc_field_title

  /** The class `[A-Z]` of the pattern. */
  predicate IsUpper(c: char) {
    'A' <= c <= 'Z'
  }

  /** `str.upper()` of one character, on ASCII letters. */
  function Upper(c: char): (u: char)
    ensures 'a' <= c <= 'z' ==> IsUpper(u) && u as int == c as int - 32
    ensures !('a' <= c <= 'z') ==> u == c
  {
    if 'a' <= c <= 'z' then (c as int - 32) as char else c
  }

  /** `re.sub('([A-Z]+)', r' \1', s)`: a space goes in front of every
      maximal run of uppercase letters. `afterUpper` says whether the
      character before `s` was an uppercase letter, so that a run is not
      split. */
  function SpaceRuns(s: string, afterUpper: bool): string
    decreases |s|
  {
    if |s| == 0 then ""
    else if IsUpper(s[0]) && !afterUpper then " " + [s[0]] + SpaceRuns(s[1..], true)
    else [s[0]] + SpaceRuns(s[1..], IsUpper(s[0]))
  }

  /** Whether an uppercase run starts at each position of `s`. */
  function RunStarts(s: string, afterUpper: bool): (m: seq<bool>)
    ensures |m| == |s|
    ensures forall i :: 0 <= i < |s| ==>
      m[i] == (IsUpper(s[i]) && if i == 0 then !afterUpper else !IsUpper(s[i - 1]))
  {
    seq(|s|, i requires 0 <= i < |s| => IsUpper(s[i]) && if i == 0 then !afterUpper else !IsUpper(s[i - 1]))
  }

  /** The number of uppercase runs of `s`. */
  function Runs(s: string, afterUpper: bool): nat {
    multiset(RunStarts(s, afterUpper))[true]
  }

  lemma RunsStep(s: string, afterUpper: bool)
    requires |s| > 0
    ensures Runs(s, afterUpper)
         == (if IsUpper(s[0]) && !afterUpper then 1 else 0) + Runs(s[1..], IsUpper(s[0]))
  {
    var m := RunStarts(s, afterUpper);
    assert m == [m[0]] + RunStarts(s[1..], IsUpper(s[0]));
  }

  /** Exactly one character is added per uppercase run. */
  lemma {:induction false} SpaceRunsLength(s: string, afterUpper: bool)
    ensures |SpaceRuns(s, afterUpper)| == |s| + Runs(s, afterUpper)
    decreases |s|
  {
    if |s| > 0 {
      RunsStep(s, afterUpper);
      SpaceRunsLength(s[1..], IsUpper(s[0]));
    }
  }

  /** The substitution never produces an uppercase letter first when no
      run was open: it writes either the space it inserts or a character
      that is not uppercase. */
  lemma FirstNotUpper(s: string)
    requires |s| > 0
    ensures !IsUpper(SpaceRuns(s, false)[0])
    ensures SpaceRuns(s, false)[0] == ' ' <==> IsUpper(s[0]) || s[0] == ' '
  {
  }

  /** Removes the spaces `SpaceRuns` inserts: a space directly before the
      first letter of an uppercase run. */
  function Unspace(t: string, afterUpper: bool): string
    decreases |t|
  {
    if |t| == 0 then ""
    else if |t| >= 2 && t[0] == ' ' && IsUpper(t[1]) && !afterUpper then [t[1]] + Unspace(t[2..], true)
    else [t[0]] + Unspace(t[1..], IsUpper(t[0]))
  }

  /** Nothing is lost: removing the inserted spaces gives the field
      back, even when the field holds spaces of its own. */
  lemma {:induction false} SpaceRunsRoundTrip(s: string, afterUpper: bool)
    ensures Unspace(SpaceRuns(s, afterUpper), afterUpper) == s
    decreases |s|
  {
    if |s| > 0 {
      var t := SpaceRuns(s, afterUpper);
      var rest := SpaceRuns(s[1..], IsUpper(s[0]));
      SpaceRunsRoundTrip(s[1..], IsUpper(s[0]));
      if IsUpper(s[0]) && !afterUpper {
        assert t == [' ', s[0]] + rest;
        assert t[2..] == rest;
      } else {
        assert t == [s[0]] + rest;
        assert t[1..] == rest;
        if |t| >= 2 && t[0] == ' ' && !afterUpper {
          FirstNotUpper(s[1..]);
        }
      }
      assert s == [s[0]] + s[1..];
    }
  }

  /** `dwc_field_title`: the field with a space before each uppercase run
      and its first character upper-cased. An empty field has no first
      character: `IndexError`. */
  function DwcFieldTitle(field: string): (r: Result<string, PyError>)
    ensures r.Err? <==> |field| == 0
    ensures r.Err? ==> r.error == IndexError
    ensures r.Ok? ==> |r.value| == |field| + Runs(field, false)
    ensures r.Ok? ==> r.value[1..] == SpaceRuns(field, false)[1..]
    ensures r.Ok? ==> (r.value[0] == ' ' <==> IsUpper(field[0]) || field[0] == ' ')
    ensures r.Ok? ==> !IsUpper(field[0]) ==> r.value[0] == Upper(field[0])
  {
    var title := SpaceRuns(field, false);
    SpaceRunsLength(field, false);
    if |title| == 0 then Err(IndexError)
    else
      FirstNotUpper(field);
      Ok([Upper(title[0])] + title[1..])
  }

  // ---------------------------------------------------------------------
  // Composing the substitution

  lemma {:induction false} SpaceRunsAppend(a: string, b: string, afterUpper: bool)
    requires |a| > 0
    ensures SpaceRuns(a + b, afterUpper) == SpaceRuns(a, afterUpper) + SpaceRuns(b, IsUpper(a[|a| - 1]))
    decreases |a|
  {
    var ab := a + b;
    assert ab[0] == a[0];
    if |a| == 1 {
      assert ab[1..] == b;
      assert a[1..] == "";
    } else {
      assert ab[1..] == a[1..] + b;
      SpaceRunsAppend(a[1..], b, IsUpper(a[0]));
      assert a[1..][|a[1..]| - 1] == a[|a| - 1];
    }
  }

  /** Text without uppercase letters is left as it is. */
  lemma {:induction false} SpaceRunsLower(w: string, afterUpper: bool)
    requires forall i :: 0 <= i < |w| ==> !IsUpper(w[i])
    ensures SpaceRuns(w, afterUpper) == w
    decreases |w|
  {
    if |w| > 0 {
      SpaceRunsLower(w[1..], false);
      assert w == [w[0]] + w[1..];
    }
  }

  /** A capitalised word after a lowercase letter gets one space. */
  lemma CapitalWord(c: char, w: string)
    requires IsUpper(c) && forall i :: 0 <= i < |w| ==> !IsUpper(w[i])
    ensures SpaceRuns([c] + w, false) == " " + [c] + w
  {
    assert ([c] + w)[1..] == w;
    SpaceRunsLower(w, true);
  }

  lemma UpperRun(u: string)
    requires forall i :: 0 <= i < |u| ==> IsUpper(u[i])
    ensures SpaceRuns(u, true) == u
    decreases |u|
  {
    if |u| > 0 {
      UpperRun(u[1..]);
      assert u == [u[0]] + u[1..];
    }
  }

  predicate NoUpper(w: string) {
    forall i :: 0 <= i < |w| ==> !IsUpper(w[i])
  }

  predicate AllUpper(u: string) {
    forall i :: 0 <= i < |u| ==> IsUpper(u[i])
  }

  /** An uppercase run with no run open before it gets one space. */
  lemma RunSpaced(u: string)
    requires |u| > 0 && AllUpper(u)
    ensures SpaceRuns(u, false) == " " + u
  {
    UpperRun(u[1..]);
    assert " " + [u[0]] + u[1..] == " " + u;
  }

  /** Whether a run was open does not matter before a character that is
      not uppercase. */
  lemma FreshStart(rest: string)
    requires |rest| == 0 || !IsUpper(rest[0])
    ensures SpaceRuns(rest, true) == SpaceRuns(rest, false)
  {
  }

  /** A lowercase word followed by an uppercase run: the run is spaced
      off, and the text after it starts afresh. */
  lemma SpacedRun(a: string, u: string, rest: string)
    requires |a| > 0 && NoUpper(a) && |u| > 0 && AllUpper(u)
    requires |rest| == 0 || !IsUpper(rest[0])
    ensures SpaceRuns(a + u + rest, false) == a + " " + u + SpaceRuns(rest, false)
  {
    assert a + u + rest == a + (u + rest);
    assert !IsUpper(a[|a| - 1]) && IsUpper(u[|u| - 1]);
    SpaceRunsAppend(a, u + rest, false);
    SpaceRunsLower(a, false);
    SpaceRunsAppend(u, rest, false);
    RunSpaced(u);
    FreshStart(rest);
    Regroup(a, " ", u, SpaceRuns(rest, false));
  }

  lemma Regroup(a: string, b: string, c: string, d: string)
    ensures a + (b + c + d) == a + b + c + d
  {
  }

  // ---------------------------------------------------------------------
  // Examples

  /** A title whose spaced text is `t`. */
  lemma TitleOf(field: string, t: string)
    requires |field| > 0 && SpaceRuns(field, false) == t && |t| > 0
    ensures DwcFieldTitle(field) == Ok([Upper(t[0])] + t[1..])
  {
  }

  lemma OccurrenceId()
    ensures DwcFieldTitle("occurrenceID") == Ok("Occurrence ID")
  {
    OccurrenceSpaced();
    TitleOf("occurrenceID", "occurrence ID");
    OccurrenceCapital();
  }

  lemma OccurrenceCapital()
    ensures "Occurrence ID" == [Upper("occurrence ID"[0])] + "occurrence ID"[1..]
  {
    assert Upper('o') == 'O';
  }

  lemma OccurrenceParts()
    ensures "occurrenceID" == "occurrence" + "ID" + ""
    ensures NoUpper("occurrence") && AllUpper("ID")
    ensures "occurrence ID" == "occurrence" + " " + "ID" + ""
  {
  }

  lemma OccurrenceSpaced()
    ensures SpaceRuns("occurrenceID", false) == "occurrence ID"
  {
    OccurrenceParts();
    SpacedRun("occurrence", "ID", "");
  }

  lemma OtherCatalogNumbers()
    ensures DwcFieldTitle("otherCatalogNumbers") == Ok("Other Catalog Numbers")
  {
    CatalogSpaced();
    TitleOf("otherCatalogNumbers", "other Catalog Numbers");
    CatalogCapital();
  }

  lemma CatalogCapital()
    ensures "Other Catalog Numbers" == [Upper("other Catalog Numbers"[0])] + "other Catalog Numbers"[1..]
  {
    assert Upper('o') == 'O';
  }

  lemma CatalogParts()
    ensures "otherCatalogNumbers" == "other" + "C" + "atalogNumbers"
    ensures "atalogNumbers" == "atalog" + "N" + "umbers"
    ensures NoUpper("other") && NoUpper("atalog") && NoUpper("umbers") && AllUpper("C") && AllUpper("N")
    ensures "other Catalog Numbers" == "other" + " " + "C" + ("atalog" + " " + "N" + "umbers")
  {
  }

  lemma CatalogSpaced()
    ensures SpaceRuns("otherCatalogNumbers", false) == "other Catalog Numbers"
  {
    CatalogParts();
    SpacedRun("atalog", "N", "umbers");
    SpaceRunsLower("umbers", false);
    SpacedRun("other", "C", "atalogNumbers");
  }
}
