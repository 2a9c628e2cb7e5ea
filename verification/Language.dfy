/** Text templates: the literal parts come from one regular-expression scan, the parameter names from a
    second, independent one, and the two are zipped together. */
module Language {
  import opened Collections

  predicate IsDigit(c: char) {
    '0' <= c <= '9'
  }

  /** What a placeholder's name may consist of: ASCII word characters and six Scandinavian letters. */
  predicate IsWord(c: char) {
    IsDigit(c) || 'a' <= c <= 'z' || 'A' <= c <= 'Z' || c == '_'
    || c in {'\U{00E6}', '\U{00F8}', '\U{00E5}', '\U{00C6}', '\U{00D8}', '\U{00C5}'}
  }

  /** Anything but braces and backslashes. */
  predicate IsPlain(c: char) {
    c != '{' && c != '\\' && c != '}'
  }

  function WordPrefix(s: string): (n: nat)
    ensures n <= |s|
    ensures forall i :: 0 <= i < n ==> IsWord(s[i])
    ensures n < |s| ==> !IsWord(s[n])
  {
    if s == "" || !IsWord(s[0]) then 0 else 1 + WordPrefix(s[1..])
  }

  function PlainPrefix(s: string): (n: nat)
    ensures n <= |s|
    ensures forall i :: 0 <= i < n ==> IsPlain(s[i])
    ensures n < |s| ==> !IsPlain(s[n])
  {
    if s == "" || !IsPlain(s[0]) then 0 else 1 + PlainPrefix(s[1..])
  }

  predicate ValidName(name: string) {
    (forall c :: c in name ==> IsWord(c)) && (name != "" ==> !IsDigit(name[0]))
  }

  // ---------- the two scans ----------

  /** The first expression, matched at the start of s: the name between the braces. */
  function Placeholder(s: string): (r: Option<string>)
    ensures r.Some? ==> |r.value| + 3 <= |s|
  {
    if |s| < 3 || s[0] != '$' || s[1] != '{' || IsDigit(s[2]) then None
    else
      var n := WordPrefix(s[2..]);
      if 2 + n < |s| && s[2 + n] == '}' then Some(s[2..2 + n]) else None
  }

  function Braced(name: string): string {
    "${" + name + "}"
  }

  /** The literal parts between the matches of the first expression. */
  function SplitScan(s: string): (parts: seq<string>)
    ensures parts != []
    decreases |s|
  {
    if s == "" then [""]
    else
      match Placeholder(s)
      case Some(name) => [""] + SplitScan(s[|name| + 3..])
      case None =>
        var rest := SplitScan(s[1..]);
        [[s[0]] + rest[0]] + rest[1..]
  }

  /** The second expression, matched at the start of s: the length of a run of plain characters with a closing
      brace behind it, or 0. */
  function Hit(s: string): nat {
    var n := PlainPrefix(s);
    if n < |s| && s[n] == '}' then n else 0
  }

  /** All matches of the second expression: the scan resumes behind each one. */
  function MatchScan(s: string): seq<string>
    decreases |s|
  {
    if s == "" then []
    else if Hit(s) > 0 then [s[..Hit(s)]] + MatchScan(s[Hit(s)..])
    else MatchScan(s[1..])
  }

  /** `String.raw`: surplus substitutions are dropped, missing ones count as empty. */
  function Raw(parts: seq<string>, substitutions: seq<string>): string {
    if |parts| == 0 then ""
    else if |parts| == 1 then parts[0]
    else if substitutions == [] then parts[0] + Raw(parts[1..], [])
    else parts[0] + substitutions[0] + Raw(parts[1..], substitutions[1..])
  }

  type Parameters = map<string, string>

  function Value(params: Parameters, name: string): string {
    if name in params then params[name] else ""
  }

  function Values(params: Parameters, names: seq<string>): seq<string> {
    seq(|names|, i requires 0 <= i < |names| => Value(params, names[i]))
  }

  function GetText(str: string, params: Option<Parameters>): string {
    match params
    case None => str
    case Some(p) => Raw(SplitScan(str), Values(p, MatchScan(str)))
  }

  // ---------- the reference: one pass, each placeholder replaced where it stands ----------

  function Substitute(s: string, params: Parameters): string
    decreases |s|
  {
    if s == "" then ""
    else
      match Placeholder(s)
      case Some(name) => Value(params, name) + Substitute(s[|name| + 3..], params)
      case None => [s[0]] + Substitute(s[1..], params)
  }

  /** The names of the placeholders the first scan removes. */
  function Names(s: string): seq<string>
    decreases |s|
  {
    if s == "" then []
    else
      match Placeholder(s)
      case Some(name) => [name] + Names(s[|name| + 3..])
      case None => Names(s[1..])
  }

  /** A template written out from its literal parts and names. */
  function Render(parts: seq<string>, names: seq<string>): string
    requires |parts| == |names| + 1
  {
    if names == [] then parts[0] else parts[0] + Braced(names[0]) + Render(parts[1..], names[1..])
  }

  // ---------- the scans are what the expressions say ----------

  lemma BracedRead(name: string, rest: string)
    requires ValidName(name)
    ensures Placeholder(Braced(name) + rest) == Some(name)
    ensures (Braced(name) + rest)[|name| + 3..] == rest
  {
    var s := Braced(name) + rest;
    assert s[2..] == name + ("}" + rest);
    assert forall i :: 0 <= i < |name| ==> s[2..][i] in name;
    WordPrefixStops(s[2..], |name|);
    assert s[2..2 + |name|] == name;
    if name != "" {
      assert s[2] == name[0];
    }
  }

  lemma BracedThere(s: string)
    requires Placeholder(s).Some?
    ensures var name := Placeholder(s).value;
            ValidName(name) && |name| + 3 <= |s| && s == Braced(name) + s[|name| + 3..]
  {
    var name := Placeholder(s).value;
    assert forall i :: 0 <= i < |name| ==> name[i] == s[2..][i];
  }

  /** The first expression matches a prefix of s in at most one way, and the scan finds it. */
  lemma PlaceholderIsTheMatch(s: string, name: string)
    ensures ValidName(name) && Braced(name) <= s <==> Placeholder(s) == Some(name)
  {
    if ValidName(name) && Braced(name) <= s {
      assert s == Braced(name) + s[|name| + 3..];
      BracedRead(name, s[|name| + 3..]);
    }
    if Placeholder(s) == Some(name) {
      BracedThere(s);
    }
  }

  /** The second expression matches at the start of s in at most one way, and the scan finds it. */
  lemma HitIsTheMatch(s: string, e: nat)
    ensures 0 < e < |s| && s[e] == '}' && (forall i :: 0 <= i < e ==> IsPlain(s[i])) <==> e > 0 && Hit(s) == e
  {
    if 0 < e < |s| && s[e] == '}' && forall i :: 0 <= i < e ==> IsPlain(s[i]) {
      PlainPrefixStops(s, e);
    }
  }

  lemma {:induction false} WordPrefixStops(s: string, n: nat)
    requires n < |s| && !IsWord(s[n]) && forall i :: 0 <= i < n ==> IsWord(s[i])
    ensures WordPrefix(s) == n
  {
    if n > 0 {
      WordPrefixStops(s[1..], n - 1);
    }
  }

  lemma {:induction false} PlainPrefixStops(s: string, n: nat)
    requires n < |s| && !IsPlain(s[n]) && forall i :: 0 <= i < n ==> IsPlain(s[i])
    ensures PlainPrefix(s) == n
  {
    if n > 0 {
      PlainPrefixStops(s[1..], n - 1);
    }
  }

  // ---------- what the split scan sees ----------

  lemma {:induction false} NamesAreValid(s: string)
    ensures forall name :: name in Names(s) ==> ValidName(name)
    decreases |s|
  {
    if s != "" {
      match Placeholder(s)
      case Some(name) =>
        BracedThere(s);
        NamesAreValid(s[|name| + 3..]);
      case None => NamesAreValid(s[1..]);
    }
  }

  /** For every string: the parts and the names between them spell it out again. */
  lemma {:induction false} SplitDecomposes(s: string)
    ensures |SplitScan(s)| == |Names(s)| + 1
    ensures Render(SplitScan(s), Names(s)) == s
    ensures forall name :: name in Names(s) ==> ValidName(name)
    decreases |s|
  {
    NamesAreValid(s);
    if s != "" {
      match Placeholder(s)
      case Some(name) =>
        var rest := s[|name| + 3..];
        SplitDecomposes(rest);
        BracedThere(s);
        RenderFrom(name, SplitScan(rest), Names(rest));
      case None =>
        SplitDecomposes(s[1..]);
        RenderLonger(s[0], SplitScan(s[1..]), Names(s));
        assert s == [s[0]] + s[1..];
    }
  }

  lemma RenderFrom(name: string, parts: seq<string>, names: seq<string>)
    requires |parts| == |names| + 1
    ensures Render([""] + parts, [name] + names) == Braced(name) + Render(parts, names)
  {
    assert ([""] + parts)[1..] == parts && ([name] + names)[1..] == names;
    assert "" + Braced(name) == Braced(name);
  }

  lemma RenderLonger(c: char, parts: seq<string>, names: seq<string>)
    requires |parts| == |names| + 1
    ensures Render([[c] + parts[0]] + parts[1..], names) == [c] + Render(parts, names)
  {
    var longer := [[c] + parts[0]] + parts[1..];
    assert longer[1..] == parts[1..];
    if names != [] {
      var rest := Braced(names[0]) + Render(parts[1..], names[1..]);
      assert Render(parts, names) == parts[0] + rest;
      assert Render(longer, names) == ([c] + parts[0]) + rest;
    }
  }

  // ---------- what the match scan sees ----------

  ghost predicate StartsBraced(s: string) {
    |s| >= 2 && s[0] == '$' && s[1] == '{'
  }

  lemma HitInContext(p: string, tail: string)
    requires p != "" && StartsBraced(tail)
    ensures Hit(p + tail) == Hit(p)
  {
    var n := PlainPrefix(p);
    PlainPrefixStops(p + tail, if n < |p| then n else n + 1);
  }

  lemma {:induction false} MatchScanSplits(p: string, tail: string)
    requires StartsBraced(tail)
    ensures MatchScan(p + tail) == MatchScan(p) + MatchScan(tail)
    decreases |p|
  {
    if p == "" {
      assert p + tail == tail;
    } else {
      var n := Hit(p);
      HitInContext(p, tail);
      if n > 0 {
        assert (p + tail)[n..] == p[n..] + tail && (p + tail)[..n] == p[..n];
        MatchScanSplits(p[n..], tail);
        assert [p[..n]] + (MatchScan(p[n..]) + MatchScan(tail)) == ([p[..n]] + MatchScan(p[n..])) + MatchScan(tail);
      } else {
        assert (p + tail)[1..] == p[1..] + tail;
        MatchScanSplits(p[1..], tail);
      }
    }
  }

  lemma HitsAroundPlaceholder(name: string, rest: string)
    requires forall c :: c in name ==> IsWord(c)
    ensures var closed := ['}'] + rest;
            && Hit(closed) == 0
            && Hit(name + closed) == |name|
            && Hit(['{'] + (name + closed)) == 0
            && Hit(['$'] + (['{'] + (name + closed))) == 0
  {
    var closed := ['}'] + rest;
    assert forall i :: 0 <= i < |name| ==> (name + closed)[i] in name;
    PlainPrefixStops(closed, 0);
    PlainPrefixStops(name + closed, |name|);
    PlainPrefixStops(['{'] + (name + closed), 0);
    PlainPrefixStops(['$'] + (['{'] + (name + closed)), 1);
  }

  lemma MatchScanSkips(c: char, s: string)
    requires Hit([c] + s) == 0
    ensures MatchScan([c] + s) == MatchScan(s)
  {
    assert ([c] + s)[1..] == s;
  }

  lemma MatchScanTakes(name: string, rest: string)
    requires name != "" && Hit(name + rest) == |name|
    ensures MatchScan(name + rest) == [name] + MatchScan(rest)
  {
    assert (name + rest)[|name|..] == rest && (name + rest)[..|name|] == name;
  }

  lemma BracedSpelled(name: string, rest: string)
    ensures Braced(name) + rest == ['$'] + (['{'] + (name + (['}'] + rest)))
  {
  }

  /** A name as the second scan sees it: not at all when it is empty. */
  function Shown(name: string): seq<string> {
    if name == "" then [] else [name]
  }

  lemma MatchScanOfPlaceholder(name: string, rest: string)
    requires forall c :: c in name ==> IsWord(c)
    ensures MatchScan(Braced(name) + rest) == Shown(name) + MatchScan(rest)
  {
    var closed := ['}'] + rest;
    HitsAroundPlaceholder(name, rest);
    MatchScanSkips('$', ['{'] + (name + closed));
    MatchScanSkips('{', name + closed);
    MatchScanSkips('}', rest);
    BracedSpelled(name, rest);
    if name == "" {
      assert name + closed == closed;
    } else {
      MatchScanTakes(name, closed);
    }
  }

  /** For every template, well-formed literals or not: the match scan sees, in order, the braced runs inside
      each literal part and the non-empty names between them. */
  function Seen(parts: seq<string>, names: seq<string>): seq<string>
    requires |parts| == |names| + 1
  {
    if names == [] then MatchScan(parts[0])
    else MatchScan(parts[0]) + (Shown(names[0]) + Seen(parts[1..], names[1..]))
  }

  lemma {:induction false} MatchScanSees(parts: seq<string>, names: seq<string>)
    requires |parts| == |names| + 1
    requires forall name :: name in names ==> ValidName(name)
    ensures MatchScan(Render(parts, names)) == Seen(parts, names)
  {
    if names != [] {
      var tail := Braced(names[0]) + Render(parts[1..], names[1..]);
      assert Render(parts, names) == parts[0] + tail;
      assert StartsBraced(tail);
      MatchScanSplits(parts[0], tail);
      assert ValidName(names[0]);
      forall name | name in names[1..] ensures ValidName(name) { assert name in names; }
      MatchScanOfPlaceholder(names[0], Render(parts[1..], names[1..]));
      MatchScanSees(parts[1..], names[1..]);
    }
  }

  // ---------- alignment ----------

  /** No placeholder is empty and no literal part contains a braced run of its own. */
  ghost predicate CleanParts(parts: seq<string>, names: seq<string>) {
    (forall name :: name in names ==> name != "") && (forall part :: part in parts ==> MatchScan(part) == [])
  }

  lemma {:induction false} MatchedAreNonEmpty(s: string)
    ensures forall m :: m in MatchScan(s) ==> m != ""
    decreases |s|
  {
    if s != "" {
      MatchedAreNonEmpty(if Hit(s) > 0 then s[Hit(s)..] else s[1..]);
    }
  }

  lemma {:induction false} CleanIsSeenAsNames(parts: seq<string>, names: seq<string>)
    requires |parts| == |names| + 1 && CleanParts(parts, names)
    ensures Seen(parts, names) == names
  {
    assert parts[0] in parts;
    if names != [] {
      assert names[0] in names && names == [names[0]] + names[1..];
      forall part | part in parts[1..] ensures part in parts { }
      forall name | name in names[1..] ensures name in names { }
      CleanIsSeenAsNames(parts[1..], names[1..]);
    }
  }

  lemma {:induction false} SeenAreNonEmpty(parts: seq<string>, names: seq<string>)
    requires |parts| == |names| + 1
    ensures forall m :: m in Seen(parts, names) ==> m != ""
  {
    MatchedAreNonEmpty(parts[0]);
    if names != [] {
      SeenAreNonEmpty(parts[1..], names[1..]);
    }
  }

  /** How much the second scan sees beyond the names. */
  function Extra(parts: seq<string>): nat {
    if parts == [] then 0 else |MatchScan(parts[0])| + Extra(parts[1..])
  }

  lemma {:induction false} SeenLength(parts: seq<string>, names: seq<string>)
    requires |parts| == |names| + 1 && forall name :: name in names ==> name != ""
    ensures |Seen(parts, names)| == |names| + Extra(parts)
  {
    if names == [] {
      assert parts[1..] == [];
    } else {
      assert names[0] in names;
      forall name | name in names[1..] ensures name in names { }
      SeenLength(parts[1..], names[1..]);
    }
  }

  lemma {:induction false} NoExtraMeansClean(parts: seq<string>)
    requires Extra(parts) == 0
    ensures forall part :: part in parts ==> MatchScan(part) == []
  {
    if parts != [] {
      NoExtraMeansClean(parts[1..]);
      assert parts == [parts[0]] + parts[1..];
    }
  }

  /** For every string: the two scans are in step exactly when its placeholders are all named and none of
      its literal parts hides a braced run. */
  lemma ScansAgreeIff(s: string)
    ensures MatchScan(s) == Names(s) <==> CleanParts(SplitScan(s), Names(s))
  {
    SplitDecomposes(s);
    var (parts, names) := (SplitScan(s), Names(s));
    MatchScanSees(parts, names);
    if CleanParts(parts, names) {
      CleanIsSeenAsNames(parts, names);
    }
    if Seen(parts, names) == names {
      SeenAreNonEmpty(parts, names);
      SeenLength(parts, names);
      NoExtraMeansClean(parts);
    }
  }

  lemma RawLonger(c: char, parts: seq<string>, substitutions: seq<string>)
    requires parts != []
    ensures Raw([[c] + parts[0]] + parts[1..], substitutions) == [c] + Raw(parts, substitutions)
  {
    var longer := [[c] + parts[0]] + parts[1..];
    assert longer[1..] == parts[1..];
    if |parts| > 1 {
      var rest := if substitutions == [] then Raw(parts[1..], [])
          else substitutions[0] + Raw(parts[1..], substitutions[1..]);
      assert Raw(parts, substitutions) == parts[0] + rest;
      assert Raw(longer, substitutions) == ([c] + parts[0]) + rest;
    }
  }

  lemma RawFrom(value: string, parts: seq<string>, substitutions: seq<string>)
    requires parts != []
    ensures Raw([""] + parts, [value] + substitutions) == value + Raw(parts, substitutions)
  {
    assert ([""] + parts)[1..] == parts && ([value] + substitutions)[1..] == substitutions;
    assert "" + value == value;
  }

  lemma ValuesFrom(params: Parameters, name: string, names: seq<string>)
    ensures Values(params, [name] + names) == [Value(params, name)] + Values(params, names)
  {
  }

  /** The text the two scans of the same string would make if they were always in step. */
  function InStep(s: string, params: Parameters): string {
    Raw(SplitScan(s), Values(params, Names(s)))
  }

  lemma RawAtPlaceholder(s: string, params: Parameters, name: string, rest: string)
    requires Placeholder(s) == Some(name) && |name| + 3 <= |s| && rest == s[|name| + 3..]
    ensures InStep(s, params) == Value(params, name) + InStep(rest, params)
  {
    assert SplitScan(s) == [""] + SplitScan(rest) && Names(s) == [name] + Names(rest);
    ValuesFrom(params, name, Names(rest));
    RawFrom(Value(params, name), SplitScan(rest), Values(params, Names(rest)));
  }

  lemma RawAtLiteral(s: string, params: Parameters)
    requires s != "" && Placeholder(s).None?
    ensures InStep(s, params) == [s[0]] + InStep(s[1..], params)
  {
    var parts := SplitScan(s[1..]);
    assert SplitScan(s) == [[s[0]] + parts[0]] + parts[1..] && Names(s) == Names(s[1..]);
    RawLonger(s[0], parts, Values(params, Names(s)));
  }

  lemma {:induction false} RawIsSubstitution(s: string, params: Parameters)
    ensures InStep(s, params) == Substitute(s, params)
    decreases |s|
  {
    if s == "" {
      assert Values(params, Names(s)) == [];
    } else if Placeholder(s).Some? {
      var name := Placeholder(s).value;
      var rest := s[|name| + 3..];
      RawAtPlaceholder(s, params, name, rest);
      RawIsSubstitution(rest, params);
    } else {
      RawAtLiteral(s, params);
      RawIsSubstitution(s[1..], params);
    }
  }

  lemma {:induction false} RawDropsSurplus(parts: seq<string>, substitutions: seq<string>, surplus: seq<string>)
    requires |parts| == |substitutions| + 1
    ensures Raw(parts, substitutions + surplus) == Raw(parts, substitutions)
  {
    if substitutions != [] {
      assert (substitutions + surplus)[1..] == substitutions[1..] + surplus;
      RawDropsSurplus(parts[1..], substitutions[1..], surplus);
    }
  }

  lemma RawOfPrefix(parts: seq<string>, params: Parameters, names: seq<string>, matches: seq<string>)
    requires |parts| == |names| + 1 && names <= matches
    ensures Raw(parts, Values(params, matches)) == Raw(parts, Values(params, names))
  {
    assert Values(params, matches) == Values(params, names) + Values(params, matches[|names|..]);
    RawDropsSurplus(parts, Values(params, names), Values(params, matches[|names|..]));
  }

  /** The text is the template with each placeholder replaced where it stands, missing parameters by nothing,
      whenever the second scan sees the names first, whatever it sees after them. */
  lemma GetTextSubstitutes(s: string, params: Parameters)
    requires Names(s) <= MatchScan(s)
    ensures GetText(s, Some(params)) == Substitute(s, params)
  {
    SplitDecomposes(s);
    RawIsSubstitution(s, params);
    RawOfPrefix(SplitScan(s), params, Names(s), MatchScan(s));
  }

  // ---------- and only then ----------

  lemma {:induction false} FirstDifference(names: seq<string>, matches: seq<string>) returns (k: nat)
    requires !(names <= matches)
    ensures k < |names| && k <= |matches| && names[..k] == matches[..k]
    ensures k < |matches| ==> names[k] != matches[k]
  {
    if matches == [] || names[0] != matches[0] {
      k := 0;
    } else {
      k := FirstDifference(names[1..], matches[1..]);
      k := k + 1;
      assert names[..k] == [names[0]] + names[1..][..k - 1] && matches[..k] == [matches[0]] + matches[1..][..k - 1];
    }
  }

  lemma {:induction false} RawIsLonger(parts: seq<string>, substitutions: seq<string>)
    requires |parts| == |substitutions| + 1
    ensures |Raw(parts, substitutions)| >= |Raw(parts, [])|
  {
    if substitutions != [] {
      RawIsLonger(parts[1..], substitutions[1..]);
    }
  }

  lemma {:induction false} RawDiffers(parts: seq<string>, xs: seq<string>, ys: seq<string>, k: nat)
    requires |parts| == |xs| + 1 && k < |xs| && k <= |ys| && xs[..k] == ys[..k]
    requires |xs[k]| == 1 && (k < |ys| ==> |ys[k]| == 1 && xs[k] != ys[k])
    ensures Raw(parts, xs) != Raw(parts, ys)
  {
    if k > 0 {
      assert xs[0] == xs[..k][0] == ys[..k][0] == ys[0];
      assert xs[1..][..k - 1] == xs[..k][1..] == ys[..k][1..] == ys[1..][..k - 1];
      RawDiffers(parts[1..], xs[1..], ys[1..], k - 1);
      SamePrefix(parts[0] + xs[0], Raw(parts[1..], xs[1..]), Raw(parts[1..], ys[1..]));
    } else if ys == [] {
      RawIsLonger(parts[1..], xs[1..]);
    } else {
      assert Raw(parts, xs)[|parts[0]|] == xs[0][0] && Raw(parts, ys)[|parts[0]|] == ys[0][0];
      assert xs[0] == [xs[0][0]] && ys[0] == [ys[0][0]];
    }
  }

  lemma SamePrefix(p: string, a: string, b: string)
    requires a != b
    ensures p + a != p + b
  {
    assert (p + a)[|p|..] == a && (p + b)[|p|..] == b;
  }

  lemma SameNamesSameValues(params: Parameters, names: seq<string>, matches: seq<string>, k: nat)
    requires k <= |names| && k <= |matches| && names[..k] == matches[..k]
    ensures Values(params, names)[..k] == Values(params, matches)[..k]
  {
    forall i | 0 <= i < k ensures Values(params, names)[i] == Values(params, matches)[i] {
      assert names[i] == names[..k][i] == matches[..k][i] == matches[i];
    }
  }

  /** Two one-letter values tell the first name that is not where it belongs from what is there instead. */
  lemma MisplacedNameShows(s: string) returns (params: Parameters)
    requires !(Names(s) <= MatchScan(s))
    ensures GetText(s, Some(params)) != Substitute(s, params)
  {
    SplitDecomposes(s);
    var names, matches := Names(s), MatchScan(s);
    var k := FirstDifference(names, matches);
    params := if k < |matches| then map[names[k] := "a", matches[k] := "b"] else map[names[k] := "a"];
    RawIsSubstitution(s, params);
    SameNamesSameValues(params, names, matches, k);
    RawDiffers(SplitScan(s), Values(params, names), Values(params, matches), k);
  }

  /** The text is the direct substitution for all parameters if and only if the names come first, in order, in
      what the second scan sees. */
  lemma TextIsRightIff(s: string)
    ensures (forall params :: GetText(s, Some(params)) == Substitute(s, params)) <==> Names(s) <= MatchScan(s)
  {
    if Names(s) <= MatchScan(s) {
      forall params ensures GetText(s, Some(params)) == Substitute(s, params) {
        GetTextSubstitutes(s, params);
      }
    } else {
      var params := MisplacedNameShows(s);
    }
  }

  // ---------- templates written by hand ----------

  lemma {:induction false} NoBraceNoMatch(s: string)
    requires '}' !in s
    ensures MatchScan(s) == []
    decreases |s|
  {
    if s != "" {
      assert forall i :: 0 <= i < |s| ==> s[i] in s;
      NoBraceNoMatch(s[1..]);
    }
  }

  lemma NoPlaceholderInLiteral(p: string, tail: string)
    requires p != "" && '}' !in p && (tail == "" || StartsBraced(tail))
    ensures Placeholder(p + tail).None?
  {
    var s := p + tail;
    assert forall i :: 0 <= i < |p| ==> s[i] in p;
    if |p| >= 2 && tail != "" {
      assert s[2..][|p| - 2] == '$';
    }
  }

  lemma {:induction false} SplitReadsLiteral(p: string, tail: string)
    requires '}' !in p && (tail == "" || StartsBraced(tail))
    ensures Names(p + tail) == Names(tail)
    ensures SplitScan(p + tail) == [p + SplitScan(tail)[0]] + SplitScan(tail)[1..]
    decreases |p|
  {
    if p == "" {
      var t := SplitScan(tail);
      assert p + tail == tail && p + t[0] == t[0] && t == [t[0]] + t[1..];
    } else {
      NoPlaceholderInLiteral(p, tail);
      assert (p + tail)[1..] == p[1..] + tail;
      SplitReadsLiteral(p[1..], tail);
      var t := SplitScan(tail);
      var rest := [p[1..] + t[0]] + t[1..];
      assert rest[1..] == t[1..] && [p[0]] + (p[1..] + t[0]) == p + t[0];
    }
  }

  lemma SplitReadsOne(p: string, name: string, rest: string)
    requires '}' !in p && ValidName(name)
    ensures SplitScan(p + (Braced(name) + rest)) == [p] + SplitScan(rest)
    ensures Names(p + (Braced(name) + rest)) == [name] + Names(rest)
  {
    var tail := Braced(name) + rest;
    SplitReadsLiteral(p, tail);
    BracedRead(name, rest);
    assert SplitScan(tail) == [""] + SplitScan(rest);
    assert p + "" == p && ([""] + SplitScan(rest))[1..] == SplitScan(rest);
  }

  /** The first scan reads literals without `}` and well-formed names back exactly. */
  lemma {:induction false} SplitReadsBack(parts: seq<string>, names: seq<string>)
    requires |parts| == |names| + 1
    requires forall part :: part in parts ==> '}' !in part
    requires forall name :: name in names ==> ValidName(name)
    ensures SplitScan(Render(parts, names)) == parts
    ensures Names(Render(parts, names)) == names
  {
    assert parts == [parts[0]] + parts[1..];
    if names == [] {
      SplitReadsLiteral(parts[0], "");
      assert parts[0] + "" == parts[0];
      assert [parts[0] + ""] + [""][1..] == parts;
    } else {
      var rest := Render(parts[1..], names[1..]);
      SplitReadsBack(parts[1..], names[1..]);
      SplitReadsOne(parts[0], names[0], rest);
      assert names == [names[0]] + names[1..];
      assert Render(parts, names) == parts[0] + (Braced(names[0]) + rest);
    }
  }

  /** With non-empty names on top, so does the second: n + 1 parts and n names. */
  lemma TemplatesReadBack(parts: seq<string>, names: seq<string>)
    requires |parts| == |names| + 1
    requires forall part :: part in parts ==> '}' !in part
    requires forall name :: name in names ==> ValidName(name) && name != ""
    ensures SplitScan(Render(parts, names)) == parts
    ensures Names(Render(parts, names)) == names
    ensures MatchScan(Render(parts, names)) == names
  {
    SplitReadsBack(parts, names);
    forall part | part in parts ensures MatchScan(part) == [] { NoBraceNoMatch(part); }
    MatchScanSees(parts, names);
    CleanIsSeenAsNames(parts, names);
  }

  /** For every such template and every parameters, the text is the direct substitution. */
  lemma GetTextOfTemplate(parts: seq<string>, names: seq<string>, params: Parameters)
    requires |parts| == |names| + 1
    requires forall part :: part in parts ==> '}' !in part
    requires forall name :: name in names ==> ValidName(name) && name != ""
    ensures GetText(Render(parts, names), Some(params)) == Raw(parts, Values(params, names)) ==
        Substitute(Render(parts, names), params)
  {
    TemplatesReadBack(parts, names);
    RawIsSubstitution(Render(parts, names), params);
  }

  /** The literal parts with what the parameters give for the names between them. */
  function Filled(parts: seq<string>, names: seq<string>, params: Parameters): string
    requires |parts| == |names| + 1
  {
    if names == [] then parts[0]
    else
      var given := if names[0] in params then params[names[0]] else [];
      parts[0] + given + Filled(parts[1..], names[1..], params)
  }

  lemma {:induction false} RawIsFilled(parts: seq<string>, names: seq<string>, params: Parameters)
    requires |parts| == |names| + 1
    ensures Raw(parts, Values(params, names)) == Filled(parts, names, params)
  {
    if names != [] {
      RawIsFilled(parts[1..], names[1..], params);
      assert Values(params, names)[1..] == Values(params, names[1..]);
    }
  }

  /** Without parameters the text is the template itself; with them it is, for every template written out of parts
      without `}` and well-formed non-empty names, the parts with the values in between. */
  lemma TextIsFilled(str: string, parts: seq<string>, names: seq<string>, params: Parameters)
    requires |parts| == |names| + 1
    requires forall part :: part in parts ==> '}' !in part
    requires forall name :: name in names ==> ValidName(name) && name != ""
    ensures GetText(str, None) == str
    ensures GetText(Render(parts, names), Some(params)) == Filled(parts, names, params)
  {
    TemplatesReadBack(parts, names);
    RawIsFilled(parts, names, params);
  }

  /** And substituting in any string is filling what the first scan makes of it. */
  lemma SubstituteIsFilled(s: string, params: Parameters)
    ensures |SplitScan(s)| == |Names(s)| + 1 && Substitute(s, params) == Filled(SplitScan(s), Names(s), params)
  {
    SplitDecomposes(s);
    RawIsSubstitution(s, params);
    RawIsFilled(SplitScan(s), Names(s), params);
  }

  /** The two character classes by code point: ASCII digits, letters and the underscore, and six Scandinavian
      letters; everything but the braces and the backslash. */
  lemma CharacterClasses(c: char)
    ensures IsWord(c) <==>
            var n := c as int;
            48 <= n <= 57 || 65 <= n <= 90 || n == 95 || 97 <= n <= 122 || n in {197, 198, 216, 229, 230, 248}
    ensures IsPlain(c) <==> c as int !in {92, 123, 125}
    ensures IsDigit(c) <==> 48 <= c as int <= 57
  {
  }

  /** An empty placeholder puts the scans out of step: the value of the next one lands one place early. */
  lemma EmptyPlaceholderShifts(p: string, q: string, r: string, name: string, params: Parameters)
    requires '}' !in p && '}' !in q && '}' !in r && ValidName(name) && name != ""
    ensures var s := Render([p, q, r], ["", name]);
            var v := Value(params, name);
            && GetText(s, Some(params)) == p + v + q + r
            && Substitute(s, params) == p + Value(params, "") + q + v + r
  {
    var parts, names, v := [p, q, r], ["", name], Value(params, name);
    SplitReadsBack(parts, names);
    SeenWithEmptyName(p, q, r, name);
    MatchScanSees(parts, names);
    assert Values(params, [name]) == [v];
    assert Values(params, names) == [Value(params, ""), v];
    RawIsSubstitution(Render(parts, names), params);
    RawOfThree(p, q, r, Value(params, ""), v);
  }

  lemma SeenWithEmptyName(p: string, q: string, r: string, name: string)
    requires '}' !in p && '}' !in q && '}' !in r && name != ""
    ensures Seen([p, q, r], ["", name]) == [name]
  {
    NoBraceNoMatch(p);
    NoBraceNoMatch(q);
    NoBraceNoMatch(r);
    assert [p, q, r][1..] == [q, r] && ["", name][1..] == [name] && [q, r][1..] == [r] && [name][1..] == [];
    assert Seen([r], []) == [];
    assert Seen([q, r], [name]) == [name];
  }

  lemma RawOfThree(p: string, q: string, r: string, u: string, v: string)
    ensures Raw([p, q, r], [v]) == p + v + q + r
    ensures Raw([p, q, r], [u, v]) == p + u + q + v + r
  {
    assert [p, q, r][1..] == [q, r] && [q, r][1..] == [r] && [v][1..] == [] && [u, v][1..] == [v];
    assert Raw([r], []) == r;
    assert Raw([q, r], []) == q + r && Raw([q, r], [v]) == q + v + r;
    assert p + v + (q + r) == p + v + q + r;
    assert p + u + (q + v + r) == p + u + q + v + r;
  }
}
