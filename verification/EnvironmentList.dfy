/** Numbered environment variables, read until the first one that is missing or empty. */
module EnvironmentList {
  import opened Collections

  type Environment = map<string, string>

  datatype EnvError = EnvNotFound(name: string)

  /** A missing and an empty variable are the same thing: the default stands in, if there is one. */
  function GetEnvironmentVariable(env: Environment, name: string,
                                  defaultValue: Option<string>): Result<string, EnvError> {
    if name in env && env[name] != "" then Success(env[name])
    else if defaultValue.Some? then Success(defaultValue.value)
    else Failure(EnvNotFound(name))
  }

  function Lookup(env: Environment, name: string): string {
    GetEnvironmentVariable(env, name, Some("")).value
  }

  /** The decimal numeral of n. */
  function Decimal(n: nat): string {
    if n < 10 then ["0123456789"[n]] else Decimal(n / 10) + ["0123456789"[n % 10]]
  }

  function IndexOf(s: string, pattern: string): Option<nat> {
    if pattern <= s then Some(0)
    else if s == "" then None
    else
      match IndexOf(s[1..], pattern)
      case Some(i) => Some(i + 1)
      case None => None
  }

  lemma {:induction false} IndexOfFits(s: string, pattern: string)
    ensures IndexOf(s, pattern).Some? ==> IndexOf(s, pattern).value + |pattern| <= |s|
  {
    if !(pattern <= s) && s != "" {
      IndexOfFits(s[1..], pattern);
    }
  }

  /** The name with the first occurrence of the pattern replaced, or as it is if there is none. */
  function Replace(name: string, pattern: string, replacement: string): string {
    match IndexOf(name, pattern)
    case None => name
    case Some(i) => IndexOfFits(name, pattern); name[..i] + replacement + name[i + |pattern|..]
  }

  function VariableName(name: string, indexChar: string, index: nat): string {
    Replace(name, indexChar, Decimal(index))
  }

  function Variable(env: Environment, name: string, indexChar: string, index: nat): string {
    Lookup(env, VariableName(name, indexChar, index))
  }

  // ---------- the name of a variable ----------

  /** The pattern stands at position i of the text. */
  predicate StandsAt(s: string, pattern: string, i: nat) {
    i + |pattern| <= |s| && s[i..i + |pattern|] == pattern
  }

  /** The search finds the first place of the pattern, if there is one. */
  lemma {:induction false} IndexOfIsFirst(s: string, pattern: string)
    ensures IndexOf(s, pattern).Some? ==>
              && StandsAt(s, pattern, IndexOf(s, pattern).value)
              && forall k :: 0 <= k < IndexOf(s, pattern).value ==> !StandsAt(s, pattern, k)
    ensures IndexOf(s, pattern).None? ==> forall k: nat :: !StandsAt(s, pattern, k)
  {
    assert StandsAt(s, pattern, 0) <==> pattern <= s;
    if !(pattern <= s) && s != "" {
      IndexOfIsFirst(s[1..], pattern);
      forall k: nat | k > 0 ensures StandsAt(s, pattern, k) <==> StandsAt(s[1..], pattern, k - 1) {
        StandsLater(s, pattern, k - 1);
      }
    }
  }

  lemma StandsLater(s: string, pattern: string, k: nat)
    requires s != ""
    ensures StandsAt(s, pattern, k + 1) <==> StandsAt(s[1..], pattern, k)
  {
    if k + 1 + |pattern| <= |s| {
      assert s[k + 1..k + 1 + |pattern|] == s[1..][k..k + |pattern|];
    }
  }

  /** The name has one part before and one behind the first place of a one-character placeholder. */
  predicate SplitsAt(name: string, indexChar: string, p: string, q: string) {
    |indexChar| == 1 && name == p + indexChar + q && indexChar[0] !in p
  }

  /** The numeral stands in for the placeholder, between the two parts of the name; a name without a
      placeholder stays as it is. */
  lemma VariableNameIs(name: string, indexChar: string, p: string, q: string, n: nat)
    ensures SplitsAt(name, indexChar, p, q) ==> VariableName(name, indexChar, n) == p + Decimal(n) + q
    ensures |indexChar| == 1 && indexChar[0] !in name ==> VariableName(name, indexChar, n) == name
  {
    if SplitsAt(name, indexChar, p, q) {
      assert name[|p|..|p| + 1] == indexChar && StandsAt(name, indexChar, |p|);
      forall k | 0 <= k < |p| ensures !StandsAt(name, indexChar, k) {
        assert name[k] == p[k] && p[k] in p && name[k..k + 1][0] == name[k];
      }
      FirstIsFound(name, indexChar, |p|);
      assert name[..|p|] == p && name[|p| + 1..] == q;
    }
    if |indexChar| == 1 && indexChar[0] !in name {
      forall k: nat ensures !StandsAt(name, indexChar, k) {
        assert k < |name| ==> name[k] in name && name[k..k + 1][0] == name[k];
      }
      IndexOfIsFirst(name, indexChar);
    }
  }

  lemma FirstIsFound(s: string, pattern: string, i: nat)
    requires StandsAt(s, pattern, i) && forall k :: 0 <= k < i ==> !StandsAt(s, pattern, k)
    ensures IndexOf(s, pattern) == Some(i)
  {
    IndexOfIsFirst(s, pattern);
  }

  // ---------- numerals ----------

  function ReadDecimal(s: string): int {
    if s == "" then 0 else ReadDecimal(s[..|s| - 1]) * 10 + (s[|s| - 1] as int - '0' as int)
  }

  lemma {:induction false} DecimalReadsBack(n: nat)
    ensures ReadDecimal(Decimal(n)) == n
  {
    if n < 10 {
      assert Decimal(n)[..0] == "";
    } else {
      DecimalReadsBack(n / 10);
      assert Decimal(n)[..|Decimal(n)| - 1] == Decimal(n / 10);
    }
  }

  /** A numeral has digits only, and no leading zero except for zero itself. */
  lemma {:induction false} DecimalIsCanonical(n: nat)
    ensures Decimal(n) != "" && (forall c :: c in Decimal(n) ==> '0' <= c <= '9')
    ensures n > 0 ==> Decimal(n)[0] != '0'
  {
    if n >= 10 {
      DecimalIsCanonical(n / 10);
    }
  }

  /** Different indices name different variables, provided the name has a place for the index. */
  lemma NamesAreDistinct(name: string, indexChar: string, i: nat, j: nat)
    requires IndexOf(name, indexChar).Some?
    ensures VariableName(name, indexChar, i) == VariableName(name, indexChar, j) <==> i == j
  {
    if VariableName(name, indexChar, i) == VariableName(name, indexChar, j) {
      IndexOfFits(name, indexChar);
      var at := IndexOf(name, indexChar).value;
      var (a, b) := (VariableName(name, indexChar, i), VariableName(name, indexChar, j));
      assert a[at..at + |Decimal(i)|] == Decimal(i) && b[at..at + |Decimal(j)|] == Decimal(j);
      assert |Decimal(i)| == |Decimal(j)|;
      DecimalReadsBack(i);
      DecimalReadsBack(j);
    }
  }

  // ---------- termination ----------

  lemma {:induction false} NameSet(name: string, indexChar: string, n: nat) returns (names: set<string>)
    requires IndexOf(name, indexChar).Some?
    ensures |names| == n
    ensures forall s :: s in names <==> exists i :: 0 <= i < n && s == VariableName(name, indexChar, i)
  {
    if n == 0 {
      names := {};
    } else {
      names := NameSet(name, indexChar, n - 1);
      var last := VariableName(name, indexChar, n - 1);
      if last in names {
        var i :| 0 <= i < n - 1 && last == VariableName(name, indexChar, i);
        NamesAreDistinct(name, indexChar, i, n - 1);
        assert false;
      }
      names := names + {last};
    }
  }

  /** As many consecutive indices as there are non-empty variables need as many entries in the environment. */
  lemma PresentFitInEnvironment(env: Environment, name: string, indexChar: string, n: nat)
    requires IndexOf(name, indexChar).Some?
    requires forall i :: 0 <= i < n ==> Variable(env, name, indexChar, i) != ""
    ensures n <= |env|
  {
    var names := NameSet(name, indexChar, n);
    forall s | s in names ensures s in env.Keys {
      var i :| 0 <= i < n && s == VariableName(name, indexChar, i);
      assert Variable(env, name, indexChar, i) != "";
    }
    SubsetCardinality(names, env.Keys);
    assert |env.Keys| == |env|;
  }

  /** Whether the loop ever meets a missing or empty variable can be told before it starts: the name has a
      place for the index, or the variable it names as it stands is itself missing or empty. */
  predicate Ends(env: Environment, name: string, indexChar: string) {
    IndexOf(name, indexChar).Some? || Lookup(env, name) == ""
  }

  lemma EndsIff(env: Environment, name: string, indexChar: string)
    ensures Ends(env, name, indexChar) <==> exists i :: 0 <= i <= |env| && Variable(env, name, indexChar, i) == ""
    ensures !Ends(env, name, indexChar) ==> forall i: nat ::
        Variable(env, name, indexChar, i) == Lookup(env, name) != ""
  {
    if IndexOf(name, indexChar).Some? {
      if forall i :: 0 <= i <= |env| ==> Variable(env, name, indexChar, i) != "" {
        PresentFitInEnvironment(env, name, indexChar, |env| + 1);
        assert false;
      }
    } else {
      assert Variable(env, name, indexChar, 0) == Lookup(env, name);
    }
  }

  /** The list holds the non-empty values of the variables numbered 0, 1, 2, ... between the two parts of the
      name, up to the first one that is missing or empty. */
  ghost predicate ListsNumbered(env: Environment, p: string, q: string, list: seq<string>) {
    && (forall i :: 0 <= i < |list| ==>
         p + Decimal(i) + q in env && list[i] == env[p + Decimal(i) + q] && list[i] != "")
    && (p + Decimal(|list|) + q in env ==> env[p + Decimal(|list|) + q] == "")
  }

  lemma ReadIsNumbered(env: Environment, name: string, indexChar: string, p: string, q: string, list: seq<string>)
    requires SplitsAt(name, indexChar, p, q)
    requires forall i :: 0 <= i < |list| ==> list[i] == Variable(env, name, indexChar, i) != ""
    requires Variable(env, name, indexChar, |list|) == ""
    ensures ListsNumbered(env, p, q, list)
  {
    forall i | 0 <= i <= |list| ensures VariableName(name, indexChar, i) == p + Decimal(i) + q {
      VariableNameIs(name, indexChar, p, q, i);
    }
  }

  /** The loop: it runs `iterations` times, at most one more than the environment has entries, and returns
      exactly the values at the indices before the first missing or empty variable. */
  method GetEnvironmentVariableList(env: Environment, name: string, indexChar: string)
    returns (resultList: seq<string>, iterations: nat)
    requires Ends(env, name, indexChar)
    ensures iterations == |resultList| + 1 <= |env| + 1
    ensures forall i :: 0 <= i < |resultList| ==> resultList[i] == Variable(env, name, indexChar, i) != ""
    ensures Variable(env, name, indexChar, |resultList|) == ""
    ensures forall p, q :: SplitsAt(name, indexChar, p, q) ==> ListsNumbered(env, p, q, resultList)
  {
    resultList := [];
    var index := 0;
    var repeat := true;
    while repeat
      invariant |resultList| == if repeat then index else index - 1
      invariant forall i :: 0 <= i < |resultList| ==> resultList[i] == Variable(env, name, indexChar, i) != ""
      invariant |resultList| <= |env|
      invariant !repeat ==> Variable(env, name, indexChar, |resultList|) == ""
      decreases if repeat then |env| + 1 - index else 0
    {
      var value := Lookup(env, VariableName(name, indexChar, index));
      if value != "" {
        resultList := resultList + [value];
        assert IndexOf(name, indexChar).Some?;
        PresentFitInEnvironment(env, name, indexChar, index + 1);
      }
      index := index + 1;
      repeat := |resultList| == index;
    }
    iterations := index;
    forall p, q | SplitsAt(name, indexChar, p, q) ensures ListsNumbered(env, p, q, resultList) {
      ReadIsNumbered(env, name, indexChar, p, q, resultList);
    }
  }
}
