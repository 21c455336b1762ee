/** The normal form of a declared or referenced path: what each replacement does, and that one pass is enough. */
module RoutePaths {

  // The place of the first `c`, or the end.
  function IndexOf(s: string, c: char): (r: nat)
    ensures r <= |s| && (r < |s| ==> s[r] == c)
    ensures forall i :: 0 <= i < r ==> s[i] != c
  {
    if s == "" || s[0] == c then 0 else 1 + IndexOf(s[1..], c)
  }

  // ${ ... } becomes :x, whatever stands between the braces but a closing one.
  function CollapseInterpolations(s: string): string
    decreases |s|
  {
    if |s| < 2 then s
    else
      var close := IndexOf(s[2..], '}') + 2;
      if s[0] == '$' && s[1] == '{' && close < |s| then ":x" + CollapseInterpolations(s[close + 1..])
      else [s[0]] + CollapseInterpolations(s[1..])
  }

  function Before(s: string, c: char): string {
    s[..IndexOf(s, c)]
  }

  predicate IsWordStart(c: char) {
    'A' <= c <= 'Z' || 'a' <= c <= 'z' || c == '_'
  }

  predicate IsWord(c: char) {
    IsWordStart(c) || '0' <= c <= '9'
  }

  // Without the leading word characters.
  function AfterWord(s: string): (r: string)
    ensures |r| <= |s| && (r == "" || !IsWord(r[0]))
    ensures forall c :: c in r ==> c in s
  {
    if s != "" && IsWord(s[0]) then AfterWord(s[1..]) else s
  }

  // :id and :projectId become :x.
  function CollapseParameters(s: string): string
    decreases |s|
  {
    if |s| < 2 then s
    else if s[0] == ':' && IsWordStart(s[1]) then ":x" + CollapseParameters(AfterWord(s[1..]))
    else [s[0]] + CollapseParameters(s[1..])
  }

  function CollapseSlashes(s: string): (r: string)
    ensures s != "" ==> r != "" && r[0] == s[0]
  {
    if |s| < 2 then s
    else if s[0] == '/' && s[1] == '/' then CollapseSlashes(s[1..])
    else [s[0]] + CollapseSlashes(s[1..])
  }

  function DropTrailingSlash(s: string): string {
    if |s| > 1 && s[|s| - 1] == '/' then s[..|s| - 1] else s
  }

  function Normal(path: string): string {
    DropTrailingSlash(CollapseSlashes(CollapseParameters(Before(Before(CollapseInterpolations(path), '?'), '#'))))
  }

  // The result is in normal form, and a path that already was is returned as it is.
  method NormalizePath(p: string) returns (out: string)
    ensures out == Normal(p) && IsNormal(out)
    ensures IsNormal(p) ==> out == p
  {
    NormalIsNormal(p);
    if IsNormal(p) {
      NormalStays(p);
    }
    out := CollapseInterpolations(p);
    out := Before(Before(out, '?'), '#');
    out := CollapseParameters(out);
    out := CollapseSlashes(out);
    if |out| > 1 && out[|out| - 1] == '/' {
      out := out[..|out| - 1];
    }
  }

  // ---------------------------------------------------------------------------------------
  // Normal forms
  // ---------------------------------------------------------------------------------------

  predicate Opens(s: string, i: nat) {
    i + 1 < |s| && s[i] == '$' && s[i + 1] == '{'
  }

  // No interpolation is ever closed.
  predicate NoInterpolation(s: string) {
    forall i: nat, j: nat :: i < j < |s| && Opens(s, i) ==> s[j] != '}'
  }

  // Every parameter is called x.
  predicate PlainParameters(s: string) {
    forall i :: 0 <= i < |s| - 1 && s[i] == ':' && IsWordStart(s[i + 1]) ==>
      s[i + 1] == 'x' && (i + 2 < |s| ==> !IsWord(s[i + 2]))
  }

  predicate NoDoubleSlash(s: string) {
    forall i :: 0 <= i < |s| - 1 && s[i] == '/' ==> s[i + 1] != '/'
  }

  predicate IsNormal(s: string) {
    && NoInterpolation(s) && '?' !in s && '#' !in s && PlainParameters(s) && NoDoubleSlash(s)
    && (|s| > 1 ==> s[|s| - 1] != '/')
  }

  // Each replacement leaves a text in its own normal form alone.

  lemma {:induction false} InterpolationsStay(s: string)
    requires NoInterpolation(s)
    ensures CollapseInterpolations(s) == s
  {
    if |s| >= 2 {
      TailNoInterpolation(s);
      InterpolationsStay(s[1..]);
      assert Opens(s, 0) ==> IndexOf(s[2..], '}') + 2 == |s| by {
        var close := IndexOf(s[2..], '}');
        assert close < |s| - 2 ==> s[close + 2] == '}';
      }
      assert s == [s[0]] + s[1..];
    }
  }

  lemma TailNoInterpolation(s: string)
    requires NoInterpolation(s) && s != ""
    ensures NoInterpolation(s[1..])
  {
    forall i: nat, j: nat | i < j < |s| - 1 && Opens(s[1..], i)
      ensures s[1..][j] != '}'
    {
      assert Opens(s, i + 1);
    }
  }

  lemma NothingBefore(s: string, c: char)
    requires c !in s
    ensures Before(s, c) == s
  {
  }

  lemma PlainSuffix(s: string, n: nat)
    requires PlainParameters(s) && n <= |s|
    ensures PlainParameters(s[n..])
  {
    assert forall i :: 0 <= i < |s| - n ==> s[n..][i] == s[n + i];
  }

  // A parameter that is called x is followed by no more of a word.
  lemma PlainParameter(s: string)
    requires PlainParameters(s) && |s| > 1 && s[0] == ':' && IsWordStart(s[1])
    ensures s == ":x" + s[2..] && AfterWord(s[1..]) == s[2..]
  {
    assert AfterWord(s[2..]) == s[2..];
    assert s[1..][1..] == s[2..];
  }

  lemma ParameterStays(s: string)
    requires PlainParameters(s) && |s| > 1 && s[0] == ':' && IsWordStart(s[1])
    requires CollapseParameters(s[2..]) == s[2..]
    ensures CollapseParameters(s) == s
  {
    PlainParameter(s);
  }

  lemma {:induction false} ParametersStay(s: string)
    requires PlainParameters(s)
    ensures CollapseParameters(s) == s
    decreases |s|
  {
    if |s| >= 2 {
      if s[0] == ':' && IsWordStart(s[1]) {
        PlainSuffix(s, 2);
        ParametersStay(s[2..]);
        ParameterStays(s);
      } else {
        PlainSuffix(s, 1);
        ParametersStay(s[1..]);
        assert s == [s[0]] + s[1..];
      }
    }
  }

  lemma {:induction false} SlashesStay(s: string)
    requires NoDoubleSlash(s)
    ensures CollapseSlashes(s) == s
  {
    if |s| >= 2 {
      assert NoDoubleSlash(s[1..]);
      SlashesStay(s[1..]);
      assert s == [s[0]] + s[1..];
    }
  }

  lemma NormalStays(s: string)
    requires IsNormal(s)
    ensures Normal(s) == s
  {
    InterpolationsStay(s);
    NothingBefore(s, '?');
    NothingBefore(s, '#');
    ParametersStay(s);
    SlashesStay(s);
  }

  // Each replacement establishes its own normal form and keeps the earlier ones.

  // `s` begins with `head`, then `t`; the opening can only be new where they meet.
  lemma PrependedNoInterpolation(c: char, t: string)
    requires NoInterpolation(t)
    requires c == '$' && t != "" && t[0] == '{' ==> '}' !in t
    ensures NoInterpolation([c] + t)
  {
    var s := [c] + t;
    forall i: nat, j: nat | i < j < |s| && Opens(s, i)
      ensures s[j] != '}'
    {
      if i > 0 {
        assert Opens(t, i - 1);
      }
      assert s[j] == t[j - 1];
    }
  }

  // No replacement brings in a character but those of :x.
  lemma {:induction false} InterpolationsAdd(s: string, c: char)
    requires c !in s && c != ':' && c != 'x'
    ensures c !in CollapseInterpolations(s)
    decreases |s|
  {
    if |s| >= 2 {
      var close := IndexOf(s[2..], '}') + 2;
      if s[0] == '$' && s[1] == '{' && close < |s| {
        NotInSuffix(s, close + 1, c);
        InterpolationsAdd(s[close + 1..], c);
        NotInEither(":x", CollapseInterpolations(s[close + 1..]), c);
      } else {
        NotInSuffix(s, 1, c);
        InterpolationsAdd(s[1..], c);
        NotInEither([s[0]], CollapseInterpolations(s[1..]), c);
      }
    }
  }

  lemma NotInSuffix(s: string, k: nat, c: char)
    requires k <= |s| && c !in s
    ensures c !in s[k..]
  {
  }

  lemma NotInEither(a: string, b: string, c: char)
    requires c !in a && c !in b
    ensures c !in a + b
  {
  }

  lemma {:induction false} ParametersAdd(s: string, c: char)
    requires c !in s && c != ':' && c != 'x'
    ensures c !in CollapseParameters(s)
    decreases |s|
  {
    if |s| >= 2 {
      if s[0] == ':' && IsWordStart(s[1]) {
        ParametersAdd(AfterWord(s[1..]), c);
      } else {
        ParametersAdd(s[1..], c);
      }
    }
  }

  lemma {:induction false} SlashesAdd(s: string, c: char)
    requires c !in s
    ensures c !in CollapseSlashes(s)
  {
    if |s| >= 2 {
      SlashesAdd(s[1..], c);
    }
  }

  lemma {:induction false} InterpolationsGone(s: string)
    ensures NoInterpolation(CollapseInterpolations(s))
    ensures var r := CollapseInterpolations(s);
            s != "" ==> r != "" && (r[0] == s[0] || r[0] == ':')
    decreases |s|
  {
    if |s| >= 2 {
      var close := IndexOf(s[2..], '}') + 2;
      if s[0] == '$' && s[1] == '{' && close < |s| {
        var t := CollapseInterpolations(s[close + 1..]);
        InterpolationsGone(s[close + 1..]);
        PrependedNoInterpolation('x', t);
        PrependedNoInterpolation(':', ['x'] + t);
        assert ":x" + t == [':'] + (['x'] + t);
      } else {
        var t := CollapseInterpolations(s[1..]);
        InterpolationsGone(s[1..]);
        if s[0] == '$' && t[0] == '{' {
          assert '}' !in s[1..] by {
            assert forall i :: 2 <= i < |s| ==> s[i] == s[2..][i - 2];
          }
          InterpolationsAdd(s[1..], '}');
        }
        PrependedNoInterpolation(s[0], t);
      }
    }
  }

  lemma {:induction false} ParametersPlain(s: string)
    requires NoInterpolation(s)
    ensures var r := CollapseParameters(s);
            && NoInterpolation(r) && PlainParameters(r)
            && (s != "" ==> r != "" && r[0] == s[0]) && (s == "" ==> r == "")
    decreases |s|
  {
    if |s| >= 2 {
      if s[0] == ':' && IsWordStart(s[1]) {
        var rest := AfterWord(s[1..]);
        SuffixKeeps(s, rest);
        ParametersPlain(rest);
        var t := CollapseParameters(rest);
        PrependedNoInterpolation('x', t);
        PrependedNoInterpolation(':', ['x'] + t);
        assert ":x" + t == [':'] + (['x'] + t);
        PlainAfterX(t);
      } else {
        TailNoInterpolation(s);
        ParametersPlain(s[1..]);
        var t := CollapseParameters(s[1..]);
        if s[0] == '$' && t[0] == '{' {
          assert Opens(s, 0);
          assert '}' !in s[1..];
          ParametersAdd(s[1..], '}');
        }
        PrependedNoInterpolation(s[0], t);
        PlainAfter(s[0], t);
      }
    }
  }

  lemma PlainAfter(c: char, t: string)
    requires PlainParameters(t) && (c == ':' && t != "" ==> !IsWordStart(t[0]))
    ensures PlainParameters([c] + t)
  {
    assert forall i :: 1 <= i < |t| + 1 ==> ([c] + t)[i] == t[i - 1];
  }

  lemma PlainAfterX(t: string)
    requires PlainParameters(t) && (t != "" ==> !IsWord(t[0]))
    ensures PlainParameters(":x" + t)
  {
    assert forall i :: 2 <= i < |t| + 2 ==> (":x" + t)[i] == t[i - 2];
  }

  // What is left after a parameter's name is a suffix.
  lemma {:induction false} AfterWordIsSuffix(s: string)
    ensures AfterWord(s) == s[|s| - |AfterWord(s)|..]
  {
    if s != "" && IsWord(s[0]) {
      AfterWordIsSuffix(s[1..]);
    }
  }

  lemma SuffixKeeps(s: string, rest: string)
    requires NoInterpolation(s) && |s| > 1 && rest == AfterWord(s[1..])
    ensures NoInterpolation(rest)
    ensures forall c :: c !in s ==> c !in rest
  {
    AfterWordIsSuffix(s[1..]);
    var n := |s| - |rest|;
    assert rest == s[n..];
    forall i: nat, j: nat | i < j < |rest| && Opens(rest, i)
      ensures rest[j] != '}'
    {
      assert Opens(s, n + i) && rest[j] == s[n + j];
    }
  }

  lemma {:induction false} SlashesSingle(s: string)
    requires NoInterpolation(s) && PlainParameters(s)
    ensures var r := CollapseSlashes(s);
            && NoInterpolation(r) && PlainParameters(r) && NoDoubleSlash(r)
            && (|s| > 1 && s[0] != '/' ==> |r| > 1 && r[1] == s[1])
  {
    if |s| >= 2 {
      var t := CollapseSlashes(s[1..]);
      TailNoInterpolation(s);
      assert PlainParameters(s[1..]);
      SlashesSingle(s[1..]);
      assert t[0] == s[1];
      if !(s[0] == '/' && s[1] == '/') {
        if Opens(s, 0) {
          assert '}' !in s[1..];
          SlashesAdd(s[1..], '}');
        }
        PrependedNoInterpolation(s[0], t);
        PlainAfterSlashes(s, t);
      }
    }
  }

  lemma PlainAfterSlashes(s: string, t: string)
    requires |s| > 1 && PlainParameters(s) && PlainParameters(t) && t != "" && t[0] == s[1]
    requires |s| > 2 && s[1] != '/' ==> |t| > 1 && t[1] == s[2]
    requires |s| == 2 ==> |t| == 1
    ensures PlainParameters([s[0]] + t)
  {
    var r := [s[0]] + t;
    assert forall i :: 1 <= i < |r| ==> r[i] == t[i - 1];
  }

  lemma PrefixKeeps(s: string, n: nat)
    requires n <= |s|
    ensures NoInterpolation(s) ==> NoInterpolation(s[..n])
    ensures forall c :: c !in s ==> c !in s[..n]
    ensures PlainParameters(s) ==> PlainParameters(s[..n])
    ensures NoDoubleSlash(s) ==> NoDoubleSlash(s[..n])
  {
    if NoInterpolation(s) {
      forall i: nat, j: nat | i < j < n && Opens(s[..n], i)
        ensures s[..n][j] != '}'
      {
        assert Opens(s, i);
      }
    }
  }

  lemma CutKeeps(path: string)
    ensures var s := Before(Before(CollapseInterpolations(path), '?'), '#');
            NoInterpolation(s) && '?' !in s && '#' !in s
  {
    var a := CollapseInterpolations(path);
    InterpolationsGone(path);
    PrefixKeeps(a, IndexOf(a, '?'));
    PrefixKeeps(Before(a, '?'), IndexOf(Before(a, '?'), '#'));
  }

  lemma CollapsedIsNormal(s: string)
    requires NoInterpolation(s) && '?' !in s && '#' !in s
    ensures var r := CollapseSlashes(CollapseParameters(s));
            NoInterpolation(r) && PlainParameters(r) && NoDoubleSlash(r) && '?' !in r && '#' !in r
  {
    ParametersPlain(s);
    SlashesSingle(CollapseParameters(s));
    ParametersAdd(s, '?');
    ParametersAdd(s, '#');
    SlashesAdd(CollapseParameters(s), '?');
    SlashesAdd(CollapseParameters(s), '#');
  }

  // Every path's normal form is normal...
  lemma NormalIsNormal(path: string)
    ensures IsNormal(Normal(path))
  {
    var s := Before(Before(CollapseInterpolations(path), '?'), '#');
    var r := CollapseSlashes(CollapseParameters(s));
    CutKeeps(path);
    CollapsedIsNormal(s);
    PrefixKeeps(r, if r == "" then 0 else |r| - 1);
  }

  // ... so normalising is idempotent, on every string.
  lemma NormalizeTwiceIsOnce(path: string)
    ensures Normal(Normal(path)) == Normal(path)
  {
    NormalIsNormal(path);
    NormalStays(Normal(path));
  }

  // ---------------------------------------------------------------------------------------
  // Which normal form
  // ---------------------------------------------------------------------------------------

  // No interpolation opens in `a`, whatever follows it.
  predicate NoOpening(a: string) {
    (forall i :: 0 <= i < |a| ==> !Opens(a, i)) && (a != "" ==> a[|a| - 1] != '$')
  }

  lemma NotOpened(s: string)
    requires |s| >= 2 && !Opens(s, 0)
    ensures CollapseInterpolations(s) == [s[0]] + CollapseInterpolations(s[1..])
  {
  }

  lemma NoOpeningLater(a: string)
    requires NoOpening(a) && a != ""
    ensures NoOpening(a[1..])
  {
    forall i | 0 <= i < |a| - 1
      ensures !Opens(a[1..], i)
    {
      assert !Opens(a, i + 1);
    }
  }

  lemma {:induction false} InterpolationsAfter(a: string, t: string)
    requires NoOpening(a)
    ensures CollapseInterpolations(a + t) == a + CollapseInterpolations(t)
    decreases |a|
  {
    if a == "" {
      assert a + t == t;
    } else if |a + t| < 2 {
      assert t == "";
    } else {
      assert (a + t)[1..] == a[1..] + t;
      assert |a| > 1 ==> !Opens(a, 0);
      NotOpened(a + t);
      NoOpeningLater(a);
      InterpolationsAfter(a[1..], t);
      PartsJoined([a[0]], a[1..], CollapseInterpolations(t));
      assert [a[0]] + a[1..] == a;
    }
  }

  lemma {:induction false} IndexAfter(u: string, c: char, v: string)
    requires c !in u
    ensures IndexOf(u + v, c) == |u| + IndexOf(v, c)
  {
    if u == "" {
      assert u + v == v;
    } else {
      assert (u + v)[1..] == u[1..] + v;
      IndexAfter(u[1..], c, v);
    }
  }

  lemma ClosedInterpolation(inner: string, b: string)
    requires '}' !in inner
    ensures CollapseInterpolations("${" + inner + "}" + b) == ":x" + CollapseInterpolations(b)
  {
    var s := "${" + inner + "}" + b;
    assert s[2..] == inner + ("}" + b);
    IndexAfter(inner, '}', "}" + b);
    assert s[|inner| + 3..] == b;
  }

  // The first interpolation of a path counts as a parameter, whatever is written in it: a question
  // mark or a fragment sign inside one cuts nothing off.
  lemma InterpolationIsParameter(a: string, inner: string, b: string)
    requires NoOpening(a) && '}' !in inner
    ensures Normal(a + "${" + inner + "}" + b) == Normal(a + ":x" + b)
  {
    InterpolationCollapsed(a, inner, b);
    ParameterUncollapsed(a, b);
  }

  lemma InterpolationCollapsed(a: string, inner: string, b: string)
    requires NoOpening(a) && '}' !in inner
    ensures CollapseInterpolations(a + "${" + inner + "}" + b) == a + (":x" + CollapseInterpolations(b))
  {
    FiveJoined(a, "${", inner, "}", b);
    InterpolationsAfter(a, "${" + inner + "}" + b);
    ClosedInterpolation(inner, b);
  }

  lemma FiveJoined(a: string, b: string, c: string, d: string, e: string)
    ensures a + b + c + d + e == a + (b + c + d + e)
  {
  }

  lemma ParameterUncollapsed(a: string, b: string)
    requires NoOpening(a)
    ensures CollapseInterpolations(a + ":x" + b) == a + (":x" + CollapseInterpolations(b))
  {
    PartsJoined(a, ":x", b);
    InterpolationsAfter(a, ":x" + b);
    InterpolationsAfter(":x", b);
  }

  lemma BeforeAfter(u: string, v: string, c: char)
    ensures Before(u + v, c) == if c in u then Before(u, c) else u + Before(v, c)
  {
    var k := IndexOf(u, c);
    if c in u {
      var i :| 0 <= i < |u| && u[i] == c;
      assert k < |u|;
      assert c !in u[..k];
      assert u + v == u[..k] + (u[k..] + v);
      IndexAfter(u[..k], c, u[k..] + v);
      assert (u[k..] + v)[0] == c;
    } else {
      IndexAfter(u, c, v);
    }
  }

  function Cut(s: string): string {
    Before(Before(s, '?'), '#')
  }

  // What is cut off does not depend on how a part before the cut is written.
  lemma CutAfter(u: string, v: string)
    requires '?' !in u && '#' !in u
    ensures Cut(u + v) == u + Cut(v)
  {
    BeforeAfter(u, v, '?');
    BeforeAfter(u, Before(v, '?'), '#');
  }

  // A query is dropped, and so is a fragment.
  lemma QueryDropped(p: string, q: string)
    requires NoOpening(p)
    ensures Normal(p + "?" + q) == Normal(p) && Normal(p + "#" + q) == Normal(p)
  {
    SignDropped(p, '?', q);
    SignDropped(p, '#', q);
  }

  lemma SignDropped(p: string, sign: char, q: string)
    requires NoOpening(p) && (sign == '?' || sign == '#')
    ensures Normal(p + [sign] + q) == Normal(p)
  {
    var rest := CollapseInterpolations(q);
    InterpolationsAfter(p, [sign] + q);
    InterpolationsAfter([sign], q);
    InterpolationsAfter(p, "");
    assert p + [sign] + q == p + ([sign] + q) && p + "" == p;
    BeforeAfter(p, [sign] + rest, '?');
    BeforeAfter([sign], rest, '?');
    BeforeAfter(p, "", '?');
    if '?' !in p {
      BeforeAfter(p, Before([sign] + rest, '?'), '#');
      BeforeAfter(p, "", '#');
      BeforeAfter([sign], Before(rest, '?'), '#');
    }
  }

  // A letter or an underscore starts a name, and digits may follow.
  predicate NameStarts(c: char) {
    'a' <= c <= 'z' || 'A' <= c <= 'Z' || c == '_'
  }

  predicate NameGoesOn(c: char) {
    'a' <= c <= 'z' || 'A' <= c <= 'Z' || c == '_' || '0' <= c <= '9'
  }

  predicate IsName(name: string) {
    name != "" && NameStarts(name[0]) && forall i :: 0 <= i < |name| ==> NameGoesOn(name[i])
  }

  lemma {:induction false} AfterWordAfter(u: string, v: string)
    requires v == "" || !IsWord(v[0])
    ensures AfterWord(u + v) == AfterWord(u) + v
  {
    if u == "" {
      assert u + v == v && AfterWord(u) + v == v;
    } else if IsWord(u[0]) {
      assert (u + v)[1..] == u[1..] + v;
      AfterWordAfter(u[1..], v);
    }
  }

  lemma {:induction false} NothingAfterName(name: string)
    requires forall i :: 0 <= i < |name| ==> IsWord(name[i])
    ensures AfterWord(name) == ""
  {
    if name != "" {
      NothingAfterName(name[1..]);
    }
  }

  lemma NameCollapses(name: string, b: string)
    requires IsName(name) && (b == "" || !IsWord(b[0]))
    ensures CollapseParameters(":" + name + b) == ":x" + CollapseParameters(b)
  {
    var s := ":" + name + b;
    RestOfName(name, b);
    ParameterFirst(s);
    AfterWordAfter(name, b);
    NothingAfterName(name);
    assert "" + b == b;
  }

  lemma RestOfName(name: string, b: string)
    requires IsName(name)
    ensures var s := ":" + name + b; |s| > 1 && s[0] == ':' && IsWordStart(s[1]) && s[1..] == name + b
  {
  }

  lemma ParameterFirst(a: string)
    requires |a| > 1 && a[0] == ':' && IsWordStart(a[1])
    ensures CollapseParameters(a) == ":x" + CollapseParameters(AfterWord(a[1..]))
  {
  }

  lemma OtherFirst(a: string)
    requires |a| > 1 && !(a[0] == ':' && IsWordStart(a[1]))
    ensures CollapseParameters(a) == [a[0]] + CollapseParameters(a[1..])
  {
  }

  // What does not go on with a word does not change how what comes before it is read.
  lemma {:induction false} ParametersBefore(a: string, t: string)
    requires t != "" && !IsWord(t[0])
    ensures CollapseParameters(a + t) == CollapseParameters(a) + CollapseParameters(t)
    decreases |a|
  {
    if a == "" {
      assert a + t == t;
      assert CollapseParameters(a) + CollapseParameters(t) == CollapseParameters(t);
    } else if |a| == 1 {
      OtherFirst(a + t);
      assert (a + t)[1..] == t;
    } else if a[0] == ':' && IsWordStart(a[1]) {
      var rest := AfterWord(a[1..]);
      ParameterFirst(a);
      ParameterFirst(a + t);
      assert (a + t)[1..] == a[1..] + t;
      AfterWordAfter(a[1..], t);
      ParametersBefore(rest, t);
      PartsJoined(":x", CollapseParameters(rest), CollapseParameters(t));
    } else {
      OtherFirst(a);
      OtherFirst(a + t);
      assert (a + t)[1..] == a[1..] + t;
      ParametersBefore(a[1..], t);
      PartsJoined([a[0]], CollapseParameters(a[1..]), CollapseParameters(t));
    }
  }

  lemma PartsJoined(a: string, b: string, c: string)
    ensures a + (b + c) == a + b + c
  {
  }

  lemma FirstOfCut(b: string)
    ensures var t := Cut(CollapseInterpolations(b)); t == "" || t[0] == b[0] || t[0] == ':'
  {
    InterpolationsGone(b);
  }

  lemma CollapsedName(a: string, name: string, b: string)
    requires IsName(name) && (b == "" || !IsWord(b[0]))
    ensures CollapseParameters(a + ":" + name + b) == CollapseParameters(a) + ":x" + CollapseParameters(b)
  {
    assert a + ":" + name + b == a + (":" + name + b);
    ParametersBefore(a, ":" + name + b);
    NameCollapses(name, b);
    assert CollapseParameters(a) + (":x" + CollapseParameters(b))
           == CollapseParameters(a) + ":x" + CollapseParameters(b);
  }

  lemma NameHasNoSigns(name: string)
    requires IsName(name)
    ensures '?' !in name && '#' !in name && '$' !in name
  {
  }

  lemma InterpolationsAfterName(a: string, name: string, b: string)
    requires NoOpening(a) && IsName(name)
    ensures CollapseInterpolations(a + ":" + name + b) == a + (":" + name + CollapseInterpolations(b))
  {
    NameHasNoSigns(name);
    assert a + ":" + name + b == a + (":" + name + b);
    InterpolationsAfter(a, ":" + name + b);
    assert NoOpening(":" + name) by {
      assert forall i :: 0 <= i < |":" + name| ==> (":" + name)[i] != '$';
    }
    InterpolationsAfter(":" + name, b);
  }

  lemma CutEarlier(a: string, t: string)
    requires '?' in a || '#' in a
    ensures Cut(a + t) == Cut(a)
  {
    BeforeAfter(a, t, '?');
    if '?' !in a {
      BeforeAfter(a, Before(t, '?'), '#');
      NothingBefore(a, '?');
    }
  }

  lemma CutAfterName(a: string, name: string, t: string)
    requires IsName(name)
    ensures Cut(a + (":" + name + t)) == if '?' in a || '#' in a then Cut(a) else a + ":" + name + Cut(t)
  {
    if '?' in a || '#' in a {
      CutEarlier(a, ":" + name + t);
    } else {
      NameHasNoSigns(name);
      CutAfter(a, ":" + name + t);
      CutAfter(":" + name, t);
      PartsJoined(a, ":" + name, Cut(t));
      assert a + (":" + name) == a + ":" + name;
    }
  }

  lemma CollapsedAround(a: string, name: string, b: string)
    requires NoOpening(a) && IsName(name) && (b == "" || !IsWord(b[0]))
    ensures CollapseParameters(Cut(CollapseInterpolations(a + ":" + name + b)))
         == if '?' in a || '#' in a then CollapseParameters(Cut(a))
            else CollapseParameters(a) + ":x" + CollapseParameters(Cut(CollapseInterpolations(b)))
  {
    var t := CollapseInterpolations(b);
    InterpolationsAfterName(a, name, b);
    CutAfterName(a, name, t);
    if '?' !in a && '#' !in a {
      FirstOfCut(b);
      CollapsedName(a, name, Cut(t));
    }
  }

  // Which name a parameter has makes no difference.
  lemma ParameterRenamed(a: string, name: string, b: string)
    requires NoOpening(a) && IsName(name) && (b == "" || !NameGoesOn(b[0]))
    ensures Normal(a + ":" + name + b) == Normal(a + ":x" + b)
  {
    CollapsedAround(a, name, b);
    CollapsedAround(a, "x", b);
    PartsJoined(a, ":", "x");
    assert ":" + "x" == ":x";
  }

  lemma {:induction false} SlashesOnce(u: string, v: string)
    ensures CollapseSlashes(u + "//" + v) == CollapseSlashes(u + "/" + v)
  {
    if u == "" {
      assert ("//" + v)[1..] == "/" + v && u + "//" + v == "//" + v && u + "/" + v == "/" + v;
    } else {
      SlashesOnce(u[1..], v);
      assert (u + "//" + v)[1..] == u[1..] + "//" + v;
      assert (u + "/" + v)[1..] == u[1..] + "/" + v;
    }
  }

  lemma SlashesBefore(a: string, slashes: string, b: string)
    requires NoOpening(a) && (slashes == "/" || slashes == "//")
    ensures Cut(CollapseInterpolations(a + slashes + b))
         == if '?' in a || '#' in a then Cut(a) else a + (slashes + Cut(CollapseInterpolations(b)))
  {
    var t := CollapseInterpolations(b);
    PartsJoined(a, slashes, b);
    InterpolationsAfter(a, slashes + b);
    InterpolationsAfter(slashes, b);
    if '?' in a || '#' in a {
      CutEarlier(a, slashes + t);
    } else {
      CutAfter(a, slashes + t);
      CutAfter(slashes, t);
    }
  }

  lemma ParametersPastSlash(t: string)
    ensures CollapseParameters("/" + t) == "/" + CollapseParameters(t)
    ensures CollapseParameters("//" + t) == "//" + CollapseParameters(t)
  {
    assert ("/" + t)[1..] == t && ("//" + t)[1..] == "/" + t;
    assert "/" + ("/" + CollapseParameters(t)) == "//" + CollapseParameters(t);
  }

  lemma ParametersAround(a: string, slashes: string, t: string)
    requires slashes == "/" || slashes == "//"
    ensures CollapseParameters(a + (slashes + t)) == CollapseParameters(a) + slashes + CollapseParameters(t)
  {
    ParametersPastSlash(t);
    ParametersBefore(a, slashes + t);
    PartsJoined(CollapseParameters(a), slashes, CollapseParameters(t));
  }

  // Slashes written twice count once.
  lemma DoubleSlashDropped(a: string, b: string)
    requires NoOpening(a)
    ensures Normal(a + "//" + b) == Normal(a + "/" + b)
  {
    var t := Cut(CollapseInterpolations(b));
    SlashesBefore(a, "/", b);
    SlashesBefore(a, "//", b);
    if '?' !in a && '#' !in a {
      ParametersAround(a, "/", t);
      ParametersAround(a, "//", t);
      SlashesOnce(CollapseParameters(a), CollapseParameters(t));
    }
  }

  lemma WithSlash(p: string)
    requires IsNormal(p) && p != ""
    ensures NoInterpolation(p + "/") && PlainParameters(p + "/") && '?' !in p + "/" && '#' !in p + "/"
  {
    forall i: nat, j: nat | i < j < |p + "/"| && Opens(p + "/", i)
      ensures (p + "/")[j] != '}'
    {
      assert Opens(p, i);
    }
  }

  lemma SlashOnNormal(p: string)
    requires NoDoubleSlash(p) && p != "" && (|p| > 1 ==> p[|p| - 1] != '/')
    ensures CollapseSlashes(p + "/") == if p == "/" then p else p + "/"
  {
    if p == "/" {
      assert p + "/" == "//" && "//"[1..] == "/";
    } else {
      SlashesStay(p + "/");
    }
  }

  // A trailing slash makes no difference, and is the only character of a normal path that goes.
  lemma TrailingSlashDropped(p: string)
    requires IsNormal(p) && p != ""
    ensures Normal(p + "/") == p
  {
    WithSlash(p);
    SlashOnNormal(p);
    InterpolationsStay(p + "/");
    NothingBefore(p + "/", '?');
    NothingBefore(p + "/", '#');
    ParametersStay(p + "/");
    assert (p + "/")[..|p|] == p;
  }
}
