/** The request helpers `build_url` and the filter parsing of
    `extract_q_and_filters`, which `routes/_helpers.py` and
    `controllers/utils.py` define identically. */
module RequestHelpers {
  import opened Results
  import Strings

  // ---------------------------------------------------------------------
  // str.strip('/')

  /** Every character of `t` is a slash. */
  predicate AllSlash(t: string) {
    forall k :: 0 <= k < |t| ==> t[k] == '/'
  }

  /** Neither end of `t` is a slash. */
  predicate NoEdgeSlash(t: string) {
    |t| == 0 || (t[0] != '/' && t[|t| - 1] != '/')
  }

  /** `r` is `s` with the slashes `s[..i]` and `s[j..]` cut off its ends. */
  predicate TrimAt(s: string, r: string, i: nat, j: nat) {
    i <= j <= |s| && r == s[i..j] && AllSlash(s[..i]) && AllSlash(s[j..])
  }

  /** `r` is `s` with some slashes cut off its ends. */
  predicate Trims(s: string, r: string) {
    exists i: nat, j: nat | i <= j <= |s| :: TrimAt(s, r, i, j)
  }

  /** `s.lstrip('/')`. */
  function StripLeft(s: string): (r: string)
    ensures |r| <= |s| && r == s[|s| - |r|..]
    ensures AllSlash(s[..|s| - |r|])
    ensures |r| == 0 || r[0] != '/'
    decreases |s|
  {
    if |s| > 0 && s[0] == '/' then
      var t := s[1..];
      var r := StripLeft(t);
      assert t[|t| - |r|..] == s[|s| - |r|..];
      var p := s[..|s| - |r|];
      var q := t[..|t| - |r|];
      assert p == ['/'] + q;
      assert AllSlash(p) by {
        forall k | 0 <= k < |p| ensures p[k] == '/' {
          if k > 0 { assert p[k] == q[k - 1]; }
        }
      }
      r
    else s
  }

  /** `s.rstrip('/')`. */
  function StripRight(s: string): (r: string)
    ensures |r| <= |s| && r == s[..|r|]
    ensures AllSlash(s[|r|..])
    ensures |r| == 0 || r[|r| - 1] != '/'
    decreases |s|
  {
    if |s| > 0 && s[|s| - 1] == '/' then
      var t := s[..|s| - 1];
      var r := StripRight(t);
      assert t[..|r|] == s[..|r|];
      assert s[|r|..] == t[|r|..] + ['/'];
      assert AllSlash(s[|r|..]) by {
        forall k | 0 <= k < |s| - |r| ensures s[|r|..][k] == '/' {
          if k < |t| - |r| { assert s[|r|..][k] == t[|r|..][k]; }
        }
      }
      r
    else s
  }

  /** `s.strip('/')`: the middle of `s` left once all slashes at both
      ends are cut off. */
  function Strip(s: string): (r: string)
    ensures Trims(s, r) && NoEdgeSlash(r)
  {
    var l := StripLeft(s);
    var r := StripRight(l);
    var i := |s| - |l|;
    assert l == s[i..];
    assert r == s[i..i + |r|];
    assert l[|r|..] == s[i + |r|..];
    assert AllSlash(s[..i]) && AllSlash(s[i + |r|..]);
    assert TrimAt(s, r, i, i + |r|);
    assert |r| > 0 ==> r[0] == l[0];
    r
  }

  /** Cutting slashes off the ends leaves nothing only when `s` is all
      slashes. */
  lemma TrimEmpty(s: string, r: string, i: nat, j: nat)
    requires TrimAt(s, r, i, j) && |r| == 0
    ensures AllSlash(s)
  {
    forall k | 0 <= k < |s| ensures s[k] == '/' {
      if k < i { assert s[..i][k] == s[k]; } else { assert s[j..][k - j] == s[k]; }
    }
  }

  /** A kept text without edge slashes starts at the first character of
      `s` that is not a slash and ends after the last one. */
  lemma TrimEdges(s: string, r: string, i: nat, j: nat)
    requires TrimAt(s, r, i, j) && NoEdgeSlash(r) && |r| > 0
    ensures i < j && s[i] != '/' && s[j - 1] != '/'
    ensures forall k :: 0 <= k < i ==> s[k] == '/'
    ensures forall k :: j <= k < |s| ==> s[k] == '/'
  {
    assert s[i] == r[0] && s[j - 1] == r[|r| - 1];
    forall k | 0 <= k < i ensures s[k] == '/' {
      assert s[..i][k] == s[k];
    }
    forall k | j <= k < |s| ensures s[k] == '/' {
      assert s[j..][k - j] == s[k];
    }
  }

  /** Only one way of cutting slashes off the ends leaves no slash at
      either end, so `Strip` cuts off all of them. */
  lemma StripUnique(s: string, r: string)
    requires Trims(s, r) && NoEdgeSlash(r)
    ensures Strip(s) == r
  {
    var i: nat, j: nat :| i <= j <= |s| && TrimAt(s, r, i, j);
    var t := Strip(s);
    var i': nat, j': nat :| i' <= j' <= |s| && TrimAt(s, t, i', j');
    if |r| == 0 {
      TrimEmpty(s, r, i, j);
      if |t| > 0 {
        TrimEdges(s, t, i', j');
      }
    } else if |t| == 0 {
      TrimEmpty(s, t, i', j');
      TrimEdges(s, r, i, j);
    } else {
      TrimEdges(s, r, i, j);
      TrimEdges(s, t, i', j');
      assert i == i' && j == j';
    }
  }

  /** Naming where the kept text lies pins down the result of `Strip`. */
  lemma StripAt(s: string, r: string, i: nat, j: nat)
    requires TrimAt(s, r, i, j) && NoEdgeSlash(r)
    ensures Strip(s) == r
  {
    StripUnique(s, r);
  }

  /** Stripping twice strips nothing more. */
  lemma StripIdempotent(s: string)
    ensures Strip(Strip(s)) == Strip(s)
  {
    var r := Strip(s);
    assert TrimAt(r, r, 0, |r|);
    StripUnique(r, r);
  }

  // ---------------------------------------------------------------------
  // build_url

  /** Every part stripped of its edge slashes. */
  function Stripped(parts: seq<string>): (r: seq<string>)
    ensures |r| == |parts|
    ensures forall i :: 0 <= i < |parts| ==> r[i] == Strip(parts[i])
  {
    seq(|parts|, i requires 0 <= i < |parts| => Strip(parts[i]))
  }

  /** `build_url(*parts)`: the stripped parts joined with `/`. */
  function BuildUrl(parts: seq<string>): (url: string)
    ensures |parts| == 0 ==> url == ""
    ensures |parts| == 1 ==> url == Strip(parts[0])
  {
    Strings.Join("/", Stripped(parts))
  }

  /** One more part adds exactly one slash and that part, stripped, so no
      slash is doubled or lost where two parts meet. */
  lemma BuildUrlSnoc(parts: seq<string>, p: string)
    requires |parts| >= 1
    ensures BuildUrl(parts + [p]) == BuildUrl(parts) + "/" + Strip(p)
    ensures NoEdgeSlash(Strip(p))
  {
    assert Stripped(parts + [p]) == Stripped(parts) + [Strip(p)];
    Strings.JoinSnoc("/", Stripped(parts), Strip(p));
  }

  /** When no stripped part holds a slash of its own, splitting the URL at
      its slashes gives the stripped parts back. */
  lemma BuildUrlSplit(parts: seq<string>)
    requires |parts| >= 1
    requires forall i :: 0 <= i < |parts| ==> '/' !in Strip(parts[i])
    ensures Strings.Split(BuildUrl(parts), '/') == Stripped(parts)
  {
    Strings.SplitJoin(Stripped(parts), '/');
  }

  // ---------------------------------------------------------------------
  // Filter parsing in extract_q_and_filters

  /** `piece.split(':', 1)` on a piece that holds a `:`, as `(field, value)`;
      `None` when the piece holds no `:`. */
  function SplitFirst(piece: string, c: char): (r: Option<(string, string)>)
    ensures r.None? <==> c !in piece
    ensures r.Some? ==> r.value.0 + [c] + r.value.1 == piece && c !in r.value.0
    decreases |piece|
  {
    if |piece| == 0 then None
    else if piece[0] == c then Some(("", piece[1..]))
    else match SplitFirst(piece[1..], c)
      case None => None
      case Some(fv) => Some(([piece[0]] + fv.0, fv.1))
  }

  /** Splitting happens at the first separator: any other way of writing
      the piece as a separator-free field, the separator and a value is
      this one. */
  lemma {:induction false} SplitFirstUnique(field: string, c: char, value: string)
    requires c !in field
    ensures SplitFirst(field + [c] + value, c) == Some((field, value))
    decreases |field|
  {
    var piece := field + [c] + value;
    if |field| == 0 {
      assert piece[1..] == value;
    } else {
      assert piece[1..] == field[1..] + [c] + value;
      assert c !in field[1..];
      SplitFirstUnique(field[1..], c, value);
      assert [field[0]] + field[1..] == field;
    }
  }

  /** A `defaultdict(list)` read: the list of `field`, empty when absent. */
  function Get(filters: map<string, seq<string>>, field: string): seq<string> {
    if field in filters then filters[field] else []
  }

  /** `filters[field].append(value)`. */
  function Append(filters: map<string, seq<string>>, field: string, value: string): (r: map<string, seq<string>>)
    ensures r.Keys == filters.Keys + {field}
    ensures Get(r, field) == Get(filters, field) + [value]
    ensures forall f :: f != field ==> Get(r, f) == Get(filters, f)
  {
    filters[field := Get(filters, field) + [value]]
  }

  /** The loop over the pieces, from `filters` on. */
  function Accumulate(filters: map<string, seq<string>>, pieces: seq<string>): map<string, seq<string>>
    decreases |pieces|
  {
    if |pieces| == 0 then filters
    else
      var next := match SplitFirst(pieces[0], ':')
        case None => filters
        case Some(fv) => Append(filters, fv.0, fv.1);
      Accumulate(next, pieces[1..])
  }

  /** The filters of an already unquoted `filters` parameter. */
  function ParseFilters(s: string): map<string, seq<string>> {
    Accumulate(map[], Strings.Split(s, '|'))
  }

  /** The (field, value) pairs the pieces hold, in order; pieces without
      `:` hold none. */
  function Pairs(pieces: seq<string>): seq<(string, string)>
    decreases |pieces|
  {
    if |pieces| == 0 then []
    else
      var first := match SplitFirst(pieces[0], ':')
        case None => []
        case Some(fv) => [fv];
      first + Pairs(pieces[1..])
  }

  /** The values paired with `field`, in order. */
  function ValuesOf(pairs: seq<(string, string)>, field: string): seq<string>
    decreases |pairs|
  {
    if |pairs| == 0 then []
    else (if pairs[0].0 == field then [pairs[0].1] else []) + ValuesOf(pairs[1..], field)
  }

  /** The loop appends, field by field, exactly the values the pieces pair
      with that field, in order, and creates no other key. */
  lemma {:induction false} AccumulateValues(filters: map<string, seq<string>>, pieces: seq<string>, field: string)
    ensures Get(Accumulate(filters, pieces), field) == Get(filters, field) + ValuesOf(Pairs(pieces), field)
    ensures field in Accumulate(filters, pieces) <==> field in filters || |ValuesOf(Pairs(pieces), field)| > 0
    decreases |pieces|
  {
    if |pieces| > 0 {
      var rest := pieces[1..];
      match SplitFirst(pieces[0], ':')
      case None =>
        assert Pairs(pieces) == Pairs(rest);
        AccumulateValues(filters, rest, field);
      case Some(fv) =>
        var next := Append(filters, fv.0, fv.1);
        AccumulateValues(next, rest, field);
        var own: seq<string> := if fv.0 == field then [fv.1] else [];
        assert Get(next, field) == Get(filters, field) + own;
        assert Pairs(pieces) == [fv] + Pairs(rest);
        assert ([fv] + Pairs(rest))[1..] == Pairs(rest);
        assert ValuesOf(Pairs(pieces), field) == own + ValuesOf(Pairs(rest), field);
        assert Accumulate(filters, pieces) == Accumulate(next, rest);
        Regroup(Get(filters, field), own, ValuesOf(Pairs(rest), field));
    }
  }

  lemma Regroup(a: seq<string>, b: seq<string>, c: seq<string>)
    ensures a + b + c == a + (b + c)
  {
  }

  /** The parsed filters are the reference grouping of the pairs: each
      field maps to its values in input order, and a field is a key iff
      some piece names it. */
  lemma ParseFiltersValues(s: string, field: string)
    ensures Get(ParseFilters(s), field) == ValuesOf(Pairs(Strings.Split(s, '|')), field)
    ensures field in ParseFilters(s) <==> |ValuesOf(Pairs(Strings.Split(s, '|')), field)| > 0
  {
    AccumulateValues(map[], Strings.Split(s, '|'), field);
  }

  /** A piece without `:` contributes nothing. */
  lemma {:induction false} IgnoredPiece(filters: map<string, seq<string>>, piece: string, pieces: seq<string>)
    requires ':' !in piece
    ensures Accumulate(filters, [piece] + pieces) == Accumulate(filters, pieces)
  {
    assert ([piece] + pieces)[1..] == pieces;
  }

  /** `extract_q_and_filters` on the request parameters, with percent
      decoding passed in as `unquote`: `q` is absent when the parameter
      is, and a missing or empty `filters` parameter gives no filters. */
  function ExtractQAndFilters(params: map<string, string>, unquote: string -> string)
    : (r: (Option<string>, map<string, seq<string>>))
    ensures r.0.None? <==> "q" !in params
    ensures r.0.Some? ==> r.0.value == unquote(params["q"])
    ensures ("filters" !in params || params["filters"] == "") ==> r.1 == map[]
    ensures "filters" in params && params["filters"] != "" ==> r.1 == ParseFilters(unquote(params["filters"]))
  {
    var q := if "q" in params then Some(unquote(params["q"])) else None;
    var filters := if "filters" in params && params["filters"] != "" then ParseFilters(unquote(params["filters"])) else map[];
    (q, filters)
  }

  // ---------------------------------------------------------------------
  // Examples

  /** A part with one slash at its end. */
  lemma StripTrailing(p: string)
    requires NoEdgeSlash(p)
    ensures Strip(p + "/") == p
  {
    StripAt(p + "/", p, 0, |p|);
  }

  /** A part with one slash at its start. */
  lemma StripLeading(p: string)
    requires NoEdgeSlash(p)
    ensures Strip("/" + p) == p
  {
    StripAt("/" + p, p, 1, |p| + 1);
  }

  /** A server given with a trailing slash and a path given with a leading
      one meet at a single slash. */
  lemma ServerAndPath(server: string, path: string)
    requires NoEdgeSlash(server) && NoEdgeSlash(path)
    ensures BuildUrl([server + "/", "/" + path]) == server + "/" + path
  {
    StripTrailing(server);
    StripLeading(path);
    BuildUrlSnoc([server + "/"], "/" + path);
    assert [server + "/"] + ["/" + path] == [server + "/", "/" + path];
  }

  lemma TileUrlParts()
    ensures NoEdgeSlash("http://tiles") && NoEdgeSlash("{z}/{x}/{y}.png")
    ensures "http://tiles/" == "http://tiles" + "/"
    ensures "/{z}/{x}/{y}.png" == "/" + "{z}/{x}/{y}.png"
    ensures "http://tiles/{z}/{x}/{y}.png" == "http://tiles" + "/" + "{z}/{x}/{y}.png"
  {
  }

  /** The tile URL of the base map settings. */
  lemma TileUrl()
    ensures BuildUrl(["http://tiles/", "/{z}/{x}/{y}.png"]) == "http://tiles/{z}/{x}/{y}.png"
  {
    TileUrlParts();
    ServerAndPath("http://tiles", "{z}/{x}/{y}.png");
  }

  /** Three separator-free pieces joined by `|` split back into them. */
  lemma SplitThree(p1: string, p2: string, p3: string)
    requires '|' !in p1 && '|' !in p2 && '|' !in p3
    ensures Strings.Split(p1 + "|" + p2 + "|" + p3, '|') == [p1, p2, p3]
  {
    assert p1 + "|" + p2 + "|" + p3 == p1 + ['|'] + (p2 + ['|'] + p3);
    Strings.SplitAfter(p1, '|', p2 + ['|'] + p3);
    Strings.SplitAfter(p2, '|', p3);
    Strings.SplitFree(p3, '|');
  }

  /** The loop over a pair, an ignored piece and a second pair for the
      same field. */
  lemma AccumulateThree(f: string, v1: string, g: string, v2: string)
    requires ':' !in f && ':' !in g
    ensures Accumulate(map[], [f + ":" + v1, g, f + ":" + v2]) == map[f := [v1, v2]]
  {
    var p1, p3 := f + ":" + v1, f + ":" + v2;
    var pieces := [p1, g, p3];
    SplitFirstUnique(f, ':', v1);
    SplitFirstUnique(f, ':', v2);
    var m1 := Append(map[], f, v1);
    assert pieces[1..] == [g, p3] && [g, p3][1..] == [p3] && [p3][1..] == [];
    assert Accumulate(map[], pieces) == Accumulate(m1, [g, p3]);
    assert Accumulate(m1, [g, p3]) == Accumulate(m1, [p3]);
    assert Accumulate(m1, [p3]) == Append(m1, f, v2);
    assert Get(map[], f) + [v1] == [v1];
    assert m1 == map[f := [v1]];
    assert [v1] + [v2] == [v1, v2];
  }

  /** Three pieces: a pair, a piece without `:` and a second value for
      the same field, which may hold `:` itself. */
  lemma RepeatedField(f: string, v1: string, g: string, v2: string)
    requires ':' !in f && ':' !in g
    requires '|' !in f && '|' !in v1 && '|' !in g && '|' !in v2
    ensures ParseFilters(f + ":" + v1 + "|" + g + "|" + f + ":" + v2) == map[f := [v1, v2]]
  {
    var p1, p3 := f + ":" + v1, f + ":" + v2;
    assert '|' !in p1 && '|' !in p3;
    assert f + ":" + v1 + "|" + g + "|" + f + ":" + v2 == p1 + "|" + g + "|" + p3;
    SplitThree(p1, g, p3);
    AccumulateThree(f, v1, g, v2);
  }

  lemma FilterExampleParts()
    ensures "a:1|b|a:2:3" == "a" + ":" + "1" + "|" + "b" + "|" + "a" + ":" + "2:3"
  {
  }

  /** `a:1|b|a:2:3` gives `a` the values `1` and `2:3`; `b` is ignored. */
  lemma FilterExample()
    ensures ParseFilters("a:1|b|a:2:3") == map["a" := ["1", "2:3"]]
  {
    FilterExampleParts();
    RepeatedField("a", "1", "b", "2:3");
  }
}
