/**
 * Speaker resolution: the list lookup of `VoicevoxClient.resolve_speaker_id`
 * in scripts/vv_box.py and its variant in scripts/stream_play_sample.py, and
 * the cached `BoxLogic.resolve_speaker_id` of scripts/vv_box.py. The
 * `/speakers` request is replaced by the list it returns, and the client
 * call made on a cache miss by an oracle.
 */
module Speakers {
  import opened Wrappers
  import opened Cleanup

  /** One entry of the `/speakers` list: its name and its style ids, in order. */
  datatype Speaker = Speaker(name: string, styles: seq<int>)

  /** The message both lookups raise. */
  function NotFound(name: string): string {
    "Speaker not found: " + name
  }

  /** Entry `i` is the first entry called `name`. */
  predicate FirstMatchAt(sp: seq<Speaker>, name: string, i: int) {
    && 0 <= i < |sp|
    && sp[i].name == name
    && forall j :: 0 <= j < i ==> sp[j].name != name
  }

  /** Entry `i` is called `name` and has at least one style. */
  predicate StyledMatch(sp: seq<Speaker>, name: string, i: int)
    requires 0 <= i < |sp|
  {
    sp[i].name == name && |sp[i].styles| > 0
  }

  /** Entry `i` is the first entry called `name` that has a style. */
  predicate FirstStyledAt(sp: seq<Speaker>, name: string, i: int) {
    && 0 <= i < |sp|
    && StyledMatch(sp, name, i)
    && forall j :: 0 <= j < i ==> !StyledMatch(sp, name, j)
  }

  lemma {:induction false} FirstMatchShift(sp: seq<Speaker>, name: string, i: int)
    requires |sp| > 0 && sp[0].name != name
    ensures FirstMatchAt(sp, name, i + 1) <==> FirstMatchAt(sp[1..], name, i)
  {
    if FirstMatchAt(sp[1..], name, i) {
      forall j | 0 <= j < i + 1 ensures sp[j].name != name {
        if j > 0 { assert sp[j] == sp[1..][j - 1]; }
      }
    }
    if FirstMatchAt(sp, name, i + 1) {
      forall j | 0 <= j < i ensures sp[1..][j].name != name {
        assert sp[1..][j] == sp[j + 1];
      }
    }
  }

  lemma {:induction false} FirstStyledShift(sp: seq<Speaker>, name: string, i: int)
    requires |sp| > 0 && !StyledMatch(sp, name, 0)
    ensures FirstStyledAt(sp, name, i + 1) <==> FirstStyledAt(sp[1..], name, i)
  {
    if FirstStyledAt(sp[1..], name, i) {
      forall j | 0 <= j < i + 1 ensures !StyledMatch(sp, name, j) {
        if j > 0 {
          assert sp[j] == sp[1..][j - 1];
          assert !StyledMatch(sp[1..], name, j - 1);
        }
      }
    }
    if FirstStyledAt(sp, name, i + 1) {
      forall j | 0 <= j < i ensures !StyledMatch(sp[1..], name, j) {
        assert sp[1..][j] == sp[j + 1];
        assert !StyledMatch(sp, name, j + 1);
      }
    }
  }

  /**
   * scripts/vv_box.py lines 135-144: the first entry called `name` decides.
   * Its first style id is the answer; when it has no style the search stops
   * with "not found", even if a later entry has the same name.
   */
  function LookupFirstMatch(sp: seq<Speaker>, name: string): (r: Result<int, string>)
    ensures r.Ok? ==> exists i :: FirstMatchAt(sp, name, i) && |sp[i].styles| > 0 && r.value == sp[i].styles[0]
    ensures r.Err? ==> r.error == NotFound(name)
    ensures r.Err? ==> forall i :: FirstMatchAt(sp, name, i) ==> |sp[i].styles| == 0
    decreases |sp|
  {
    if |sp| == 0 then Err(NotFound(name))
    else if sp[0].name != name then
      var r := LookupFirstMatch(sp[1..], name);
      if r.Ok? then
        var i :| FirstMatchAt(sp[1..], name, i) && |sp[1..][i].styles| > 0 && r.value == sp[1..][i].styles[0];
        FirstMatchShift(sp, name, i);
        assert FirstMatchAt(sp, name, i + 1);
        r
      else
        forall i | FirstMatchAt(sp, name, i) ensures |sp[i].styles| == 0 {
          FirstMatchShift(sp, name, i - 1);
        }
        r
    else if |sp[0].styles| == 0 then
      assert forall i :: FirstMatchAt(sp, name, i) ==> i == 0;
      Err(NotFound(name))
    else
      assert FirstMatchAt(sp, name, 0);
      Ok(sp[0].styles[0])
  }

  /**
   * scripts/stream_play_sample.py lines 62-70: entries without a style are
   * skipped, so the first entry called `name` that has a style decides.
   */
  function LookupAnyStyled(sp: seq<Speaker>, name: string): (r: Result<int, string>)
    ensures r.Ok? ==> exists i :: FirstStyledAt(sp, name, i) && r.value == sp[i].styles[0]
    ensures r.Err? ==> r.error == NotFound(name)
    ensures r.Err? ==> forall i :: 0 <= i < |sp| ==> !StyledMatch(sp, name, i)
    decreases |sp|
  {
    if |sp| == 0 then Err(NotFound(name))
    else if !StyledMatch(sp, name, 0) then
      var r := LookupAnyStyled(sp[1..], name);
      if r.Ok? then
        var i :| FirstStyledAt(sp[1..], name, i) && r.value == sp[1..][i].styles[0];
        FirstStyledShift(sp, name, i);
        assert FirstStyledAt(sp, name, i + 1);
        r
      else
        forall i | 0 < i < |sp| ensures !StyledMatch(sp, name, i) {
          assert sp[i] == sp[1..][i - 1];
          assert !StyledMatch(sp[1..], name, i - 1);
        }
        r
    else
      assert FirstStyledAt(sp, name, 0);
      Ok(sp[0].styles[0])
  }

  /** At most one entry is the first match, and at most one is the first styled match. */
  lemma FirstMatchUnique(sp: seq<Speaker>, name: string, i: int, j: int)
    requires FirstMatchAt(sp, name, i) && FirstMatchAt(sp, name, j)
    ensures i == j
  {
  }

  lemma FirstStyledUnique(sp: seq<Speaker>, name: string, i: int, j: int)
    requires FirstStyledAt(sp, name, i) && FirstStyledAt(sp, name, j)
    ensures i == j
  {
  }

  /**
   * When the first entry called `name` has a style, both lookups return its
   * first style id.
   */
  lemma LookupsAgree(sp: seq<Speaker>, name: string, i: int)
    requires FirstMatchAt(sp, name, i) && |sp[i].styles| > 0
    ensures LookupFirstMatch(sp, name) == Ok(sp[i].styles[0])
    ensures LookupAnyStyled(sp, name) == Ok(sp[i].styles[0])
  {
    var r := LookupFirstMatch(sp, name);
    if r.Ok? {
      var k :| FirstMatchAt(sp, name, k) && |sp[k].styles| > 0 && r.value == sp[k].styles[0];
      FirstMatchUnique(sp, name, i, k);
    }
    assert FirstStyledAt(sp, name, i) by {
      forall j | 0 <= j < i ensures !StyledMatch(sp, name, j) {
      }
    }
    var s := LookupAnyStyled(sp, name);
    if s.Ok? {
      var k :| FirstStyledAt(sp, name, k) && s.value == sp[k].styles[0];
      FirstStyledUnique(sp, name, i, k);
    }
  }

  /**
   * When the first entry called `name` has no style, the first-match lookup
   * fails while the skipping lookup carries on with the entries after it.
   */
  lemma LookupsDiverge(sp: seq<Speaker>, name: string, i: int)
    requires FirstMatchAt(sp, name, i) && |sp[i].styles| == 0
    ensures LookupFirstMatch(sp, name) == Err(NotFound(name))
    ensures LookupAnyStyled(sp, name) == LookupAnyStyled(sp[i + 1..], name)
  {
    SkipUnstyled(sp, name, i + 1);
  }

  /** Dropping a prefix with no styled match does not change the skipping lookup. */
  lemma {:induction false} SkipUnstyled(sp: seq<Speaker>, name: string, n: int)
    requires 0 <= n <= |sp|
    requires forall j :: 0 <= j < n ==> !StyledMatch(sp, name, j)
    ensures LookupAnyStyled(sp, name) == LookupAnyStyled(sp[n..], name)
    decreases n
  {
    if n > 0 {
      assert !StyledMatch(sp, name, 0);
      forall j | 0 <= j < n - 1 ensures !StyledMatch(sp[1..], name, j) {
        assert sp[1..][j] == sp[j + 1];
        assert !StyledMatch(sp, name, j + 1);
      }
      SkipUnstyled(sp[1..], name, n - 1);
      assert sp[1..][n - 1..] == sp[n..];
    }
  }

  /** Whenever the first-match lookup succeeds, the skipping one gives the same id. */
  lemma FirstMatchRefinesAnyStyled(sp: seq<Speaker>, name: string)
    requires LookupFirstMatch(sp, name).Ok?
    ensures LookupAnyStyled(sp, name) == LookupFirstMatch(sp, name)
  {
    var r := LookupFirstMatch(sp, name);
    var k :| FirstMatchAt(sp, name, k) && |sp[k].styles| > 0 && r.value == sp[k].styles[0];
    LookupsAgree(sp, name, k);
  }

  // ---------------------------------------------------------------------
  // BoxLogic.resolve_speaker_id
  // ---------------------------------------------------------------------

  /** The `speaker` argument of a request: absent, a JSON integer, or any other value as its `str()`. */
  datatype SpeakerArg = Absent | IntId(id: int) | Named(text: string)

  predicate IsDigit(c: char) {
    '0' <= c <= '9'
  }

  /** `str.isdigit()` on ASCII text: non-empty and all digits. */
  predicate IsDecimal(s: string) {
    |s| > 0 && forall i :: 0 <= i < |s| ==> IsDigit(s[i])
  }

  /** `int(s)` on a string of ASCII digits. */
  function DigitsValue(s: string): (n: nat)
    requires forall i :: 0 <= i < |s| ==> IsDigit(s[i])
  {
    if |s| == 0 then 0
    else
      assert IsDigit(s[|s| - 1]);
      DigitsValue(s[..|s| - 1]) * 10 + (s[|s| - 1] as int - '0' as int)
  }

  /** `str(n)` for a natural number: the inverse direction of `DigitsValue`. */
  function Decimal(n: nat): (s: string)
    ensures IsDecimal(s)
  {
    var d := ['0' + (n % 10) as char];
    if n < 10 then d else Decimal(n / 10) + d
  }

  /** `int(str(n)) == n`: an id written in decimal parses back to itself. */
  lemma {:induction false} DecimalRoundTrip(n: nat)
    ensures DigitsValue(Decimal(n)) == n
  {
    var s := Decimal(n);
    if n >= 10 {
      DecimalRoundTrip(n / 10);
      assert s[..|s| - 1] == Decimal(n / 10);
    }
  }

  /** The name cache and the number of client lookups made so far. */
  datatype Resolver = Resolver(cache: map<string, int>, lookups: nat)

  datatype Resolution = Resolution(outcome: Result<int, string>, resolver: Resolver)

  /**
   * Lines 257-261: the name `resolve_speaker_id` works with, `None` for an
   * integer argument. An absent or blank argument stands for the default.
   */
  function NameOf(defaultName: string, arg: SpeakerArg): (k: Option<string>)
    ensures arg.IntId? <==> k.None?
    ensures k.Some? ==> k.value == Strip(k.value)
    ensures arg.Named? && |Strip(arg.text)| > 0 ==> k == Some(Strip(arg.text))
    ensures arg.Absent? || (arg.Named? && |Strip(arg.text)| == 0) ==> k == Some(Strip(defaultName))
  {
    match arg
    case IntId(_) => None
    case Absent => StripStripped(defaultName); Some(Strip(defaultName))
    case Named(s) =>
      if |Strip(s)| == 0 then StripStripped(defaultName); Some(Strip(defaultName))
      else StripStripped(s); Some(Strip(s))
  }

  /**
   * scripts/vv_box.py lines 256-269. Integers and digit strings are ids
   * already; a cached name is answered from the cache; any other name costs
   * one client lookup, whose result is cached only when it succeeds.
   */
  function Resolve(defaultName: string, res: Resolver, arg: SpeakerArg,
                   client: string -> Result<int, string>): (r: Resolution)
    ensures arg.IntId? ==> r == Resolution(Ok(arg.id), res)
    ensures r.resolver.lookups == res.lookups || r.resolver.lookups == res.lookups + 1
    ensures r.resolver.lookups == res.lookups + 1 <==>
      var k := NameOf(defaultName, arg);
      k.Some? && !IsDecimal(k.value) && k.value !in res.cache
    ensures r.resolver.lookups == res.lookups ==> r.resolver.cache == res.cache
    ensures r.resolver.lookups == res.lookups + 1 ==>
      var name := NameOf(defaultName, arg).value;
      && r.outcome == client(name)
      && (r.outcome.Ok? ==> r.resolver.cache == res.cache[name := r.outcome.value])
      && (r.outcome.Err? ==> r.resolver.cache == res.cache)
    ensures r.resolver.lookups == res.lookups && !arg.IntId? ==>
      var name := NameOf(defaultName, arg).value;
      && (IsDecimal(name) ==> r.outcome == Ok(DigitsValue(name)))
      && (!IsDecimal(name) ==> name in res.cache && r.outcome == Ok(res.cache[name]))
  {
    match NameOf(defaultName, arg)
    case None => Resolution(Ok(arg.id), res)
    case Some(name) =>
      if IsDecimal(name) then Resolution(Ok(DigitsValue(name)), res)
      else if name in res.cache then Resolution(Ok(res.cache[name]), res)
      else
        var found := client(name);
        var cache := if found.Ok? then res.cache[name := found.value] else res.cache;
        Resolution(found, Resolver(cache, res.lookups + 1))
  }

  /**
   * tests/test_vv_box.py lines 59-61: resolving the same name twice makes a
   * single client lookup and returns the same id both times.
   */
  lemma ResolveTwiceLooksUpOnce(defaultName: string, res: Resolver, arg: SpeakerArg,
                                client: string -> Result<int, string>)
    requires Resolve(defaultName, res, arg, client).outcome.Ok?
    ensures var first := Resolve(defaultName, res, arg, client);
      var second := Resolve(defaultName, first.resolver, arg, client);
      && second.outcome == first.outcome
      && second.resolver == first.resolver
      && first.resolver.lookups <= res.lookups + 1
  {
  }

  /**
   * A failed lookup is not cached, so the next request for that name asks
   * the client again and gets whatever the client answers then.
   */
  lemma FailedLookupRepeats(defaultName: string, res: Resolver, arg: SpeakerArg,
                            client: string -> Result<int, string>, later: string -> Result<int, string>)
    requires Resolve(defaultName, res, arg, client).outcome.Err?
    ensures var first := Resolve(defaultName, res, arg, client);
      var second := Resolve(defaultName, first.resolver, arg, later);
      && first.resolver.cache == res.cache
      && second.resolver.lookups == first.resolver.lookups + 1
      && second.outcome == later(NameOf(defaultName, arg).value)
  {
  }

  /** Lines 262-263: a speaker id sent as its decimal text resolves to that id, without a lookup. */
  lemma DecimalResolves(defaultName: string, res: Resolver, n: nat, client: string -> Result<int, string>)
    ensures Resolve(defaultName, res, Named(Decimal(n)), client) == Resolution(Ok(n), res)
  {
    var s := Decimal(n);
    StripVisibleEnds(s);
    DecimalRoundTrip(n);
  }

  /** The resolver after handling `args` in order. */
  function ResolveAll(defaultName: string, res: Resolver, args: seq<SpeakerArg>,
                      client: string -> Result<int, string>): (r: Resolver)
    ensures res.lookups <= r.lookups
    ensures res.cache.Keys <= r.cache.Keys
    decreases |args|
  {
    if |args| == 0 then res
    else ResolveAll(defaultName, Resolve(defaultName, res, args[0], client).resolver, args[1..], client)
  }

  /** The names among `args` that would need a client lookup when not cached. */
  function LookupNames(defaultName: string, args: seq<SpeakerArg>): (names: set<string>)
  {
    if |args| == 0 then {}
    else
      var k := NameOf(defaultName, args[0]);
      var rest := LookupNames(defaultName, args[1..]);
      if k.Some? && !IsDecimal(k.value) then {k.value} + rest else rest
  }

  /**
   * While every lookup succeeds, each lookup adds exactly one name to the
   * cache, and the new names are names the requests asked for.
   */
  lemma {:induction false} LookupsMatchNewNames(defaultName: string, res: Resolver, args: seq<SpeakerArg>,
                                                client: string -> Result<int, string>)
    requires forall name :: client(name).Ok?
    ensures var r := ResolveAll(defaultName, res, args, client);
      && r.lookups - res.lookups == |r.cache.Keys| - |res.cache.Keys|
      && r.cache.Keys <= res.cache.Keys + LookupNames(defaultName, args)
    decreases |args|
  {
    if |args| > 0 {
      var mid := Resolve(defaultName, res, args[0], client).resolver;
      LookupsMatchNewNames(defaultName, mid, args[1..], client);
      if mid.lookups == res.lookups + 1 {
        var name := NameOf(defaultName, args[0]).value;
        assert mid.cache.Keys == res.cache.Keys + {name};
        assert name !in res.cache.Keys;
      }
    }
  }

  lemma {:induction false} SubsetCardinality<T>(a: set<T>, b: set<T>)
    requires a <= b
    ensures |a| <= |b|
    decreases |b|
  {
    if a != {} {
      var x :| x in a;
      SubsetCardinality(a - {x}, b - {x});
    }
  }

  /**
   * Lines 264-268: while lookups succeed, a run of requests makes at most
   * one client lookup per distinct name it asks for.
   */
  lemma LookupsBoundedByNames(defaultName: string, res: Resolver, args: seq<SpeakerArg>,
                              client: string -> Result<int, string>)
    requires forall name :: client(name).Ok?
    ensures ResolveAll(defaultName, res, args, client).lookups <= res.lookups + |LookupNames(defaultName, args)|
  {
    var r := ResolveAll(defaultName, res, args, client);
    var names := LookupNames(defaultName, args);
    LookupsMatchNewNames(defaultName, res, args, client);
    SubsetCardinality(r.cache.Keys, res.cache.Keys + names);
    assert |res.cache.Keys + names| <= |res.cache.Keys| + |names|;
  }
}
