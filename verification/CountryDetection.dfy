/** Which country a request counts as coming from, and which signal decided it. */
module CountryDetection {
  import opened Wrappers
  import opened Text

  datatype CountrySource = Override | EdgeHeader | Ip | Declared | Unknown

  datatype Resolution = Resolution(country: Option<string>, source: CountrySource, detected: Option<string>)

  // What the configuration and the request say. `edge` holds the edge country headers in the
  // order they are trusted; `byIp` is the IP lookup's answer, already normalised.
  datatype Signals = Signals(forced: string, trustEdge: bool, edge: seq<string>, byIp: Option<string>)

  predicate IsCountryCode(code: string) {
    && |code| == 2
    && 'A' <= code[0] <= 'Z' && 'A' <= code[1] <= 'Z'
    && code != "XX"
  }

  function UpperChar(c: char): char {
    if 'a' <= c <= 'z' then (c as int - 32) as char else c
  }

  function Upper(s: string): string {
    seq(|s|, i requires 0 <= i < |s| => UpperChar(s[i]))
  }

  function NormalizeCountry(value: string): (r: Option<string>)
    ensures r.Some? ==> IsCountryCode(r.value)
  {
    var code := Upper(Trim(value));
    if IsCountryCode(code) then Some(code) else None
  }

  lemma UpperStays(s: string)
    requires forall i :: 0 <= i < |s| ==> 'A' <= s[i] <= 'Z'
    ensures Upper(s) == s && Trim(s) == s
  {
    TrimmedStays(s);
  }

  // Two capital letters other than XX name themselves, and any value names what it is without outer
  // space and in capitals, if that is two such letters, and nothing otherwise.
  lemma CountrySpelling(value: string, code: string)
    ensures |code| == 2 && 'A' <= code[0] <= 'Z' && 'A' <= code[1] <= 'Z' && code != "XX" ==>
              NormalizeCountry(code) == Some(code)
    ensures NormalizeCountry(value) == Some(code)
       <==> |code| == 2 && 'A' <= code[0] <= 'Z' && 'A' <= code[1] <= 'Z' && code != "XX" && Upper(Trim(value)) == code
    ensures NormalizeCountry("XX").None? && NormalizeCountry("T1").None? && NormalizeCountry("").None?
  {
    if IsCountryCode(code) {
      UpperStays(code);
    }
    UpperStays("XX");
    TrimmedStays("T1");
    assert Upper("T1")[1] == '1';
  }

  // The countries the edge headers name, header by header.
  function EdgeCountries(edge: seq<string>): (r: seq<Option<string>>)
    ensures |r| == |edge|
  {
    seq(|edge|, i requires 0 <= i < |edge| => NormalizeCountry(edge[i]))
  }

  function FirstSome<T>(options: seq<Option<T>>): Option<T> {
    if options == [] then None
    else if options[0].Some? then options[0]
    else FirstSome(options[1..])
  }

  lemma {:induction false} FirstSomeAt<T>(options: seq<Option<T>>, i: nat)
    requires i <= |options| && forall k :: 0 <= k < i ==> options[k].None?
    ensures FirstSome(options) == if i < |options| && options[i].Some? then options[i] else FirstSome(options[i..])
    ensures i == |options| ==> FirstSome(options).None?
  {
    if i > 0 {
      FirstSomeAt(options[1..], i - 1);
      assert options[1..][i - 1..] == options[i..];
    }
  }

  function Resolve(signals: Signals, declared: string): Resolution {
    var forced := NormalizeCountry(signals.forced);
    if forced.Some? then Resolution(forced, Override, None)
    else
      var edge := if signals.trustEdge then FirstSome(EdgeCountries(signals.edge)) else None;
      if edge.Some? then Resolution(edge, EdgeHeader, edge)
      else if signals.byIp.Some? then Resolution(signals.byIp, Ip, signals.byIp)
      else if NormalizeCountry(declared).Some? then Resolution(NormalizeCountry(declared), Declared, None)
      else Resolution(None, Unknown, None)
  }

  // Something other than the workspace's own claim names a country.
  predicate HardSignal(signals: Signals) {
    || NormalizeCountry(signals.forced).Some?
    || signals.byIp.Some?
    || (signals.trustEdge && exists i :: 0 <= i < |signals.edge| && EdgeCountries(signals.edge)[i].Some?)
  }

  lemma {:induction false} FirstSomeExists<T>(options: seq<Option<T>>)
    ensures FirstSome(options).Some? <==> exists i :: 0 <= i < |options| && options[i].Some?
  {
    if options != [] && options[0].None? {
      FirstSomeExists(options[1..]);
      assert forall i :: 0 < i < |options| ==> options[i] == options[1..][i - 1];
    }
  }

  // The self-declared country decides exactly when nothing harder does, and then only if it is a
  // country at all; with no signal whatever the answer is no country.
  lemma DeclaredIsLastResort(signals: Signals, declared: string, other: string)
    ensures HardSignal(signals) ==> Resolve(signals, declared) == Resolve(signals, other)
    ensures Resolve(signals, declared).source == Declared
       <==> !HardSignal(signals) && NormalizeCountry(declared).Some?
    ensures Resolve(signals, declared).country.None?
       <==> !HardSignal(signals) && NormalizeCountry(declared).None?
    ensures !HardSignal(signals) ==> Resolve(signals, declared).country == NormalizeCountry(declared)
  {
    FirstSomeExists(EdgeCountries(signals.edge));
  }

  // The signals from the most trusted down, as countries.
  function Ladder(signals: Signals, declared: string): seq<Option<string>> {
    [NormalizeCountry(signals.forced)] + (if signals.trustEdge then EdgeCountries(signals.edge) else [])
    + [signals.byIp, NormalizeCountry(declared)]
  }

  lemma {:induction false} FirstSomeOfBoth<T>(first: seq<Option<T>>, second: seq<Option<T>>)
    ensures FirstSome(first + second) == if FirstSome(first).Some? then FirstSome(first) else FirstSome(second)
  {
    if first == [] {
      assert first + second == second;
    } else {
      assert (first + second)[1..] == first[1..] + second;
      FirstSomeOfBoth(first[1..], second);
    }
  }

  // The country is that of the first signal to name one: the operator's override, the trusted edge
  // headers in their order, the lookup, the workspace's own claim. The source says which of these it
  // was, and only what the request itself showed counts as detected.
  lemma FirstSignalDecides(signals: Signals, declared: string)
    ensures var r := Resolve(signals, declared);
            && r.country == FirstSome(Ladder(signals, declared))
            && (r.source == Override <==> NormalizeCountry(signals.forced).Some?)
            && (r.source == EdgeHeader
                <==> && NormalizeCountry(signals.forced).None? && signals.trustEdge
                     && exists i :: 0 <= i < |signals.edge| && EdgeCountries(signals.edge)[i].Some?)
            && (r.source == Unknown <==> r.country.None?)
            && r.detected == if r.source == EdgeHeader || r.source == Ip then r.country else None
  {
    var edge := if signals.trustEdge then EdgeCountries(signals.edge) else [];
    var rest := [signals.byIp, NormalizeCountry(declared)];
    FirstSomeExists(EdgeCountries(signals.edge));
    FirstSomeOfBoth([NormalizeCountry(signals.forced)] + edge, rest);
    FirstSomeOfBoth([NormalizeCountry(signals.forced)], edge);
    assert rest[1..][1..] == [];
  }

  // A header an edge did not set cannot move the answer unless the operator trusts edge headers.
  lemma UntrustedHeadersIgnored(signals: Signals, forged: seq<string>, declared: string)
    requires !signals.trustEdge
    ensures Resolve(signals.(edge := forged), declared) == Resolve(signals, declared)
  {
  }
}
