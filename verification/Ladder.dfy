/**
 Resolving one seeded instrument to its canonical contract ladder. Reading an expiry
 token and accepting a contract symbol belong to the symbol grammar, which arrives as a
 parameter; an expiry is its `YYYYMMDD` key.
 */
module Ladder {
  import opened Collections
  import opened Text
  import opened Words

  datatype OptionStyle = Call | Put

  datatype Contract = Contract(expiration: u64, strike: u64, style: OptionStyle)

  datatype Grammar = Grammar(parseExpiry: string -> Option<u64>, accepts: Contract -> bool)

  datatype FileInstrument = FileInstrument(
    openingPriceCents: u64,
    expirations: seq<string>,
    strikes: seq<u64>,
    styles: Option<seq<string>>,
    persona: Option<string>)

  datatype SeedInstrumentSet = SeedInstrumentSet(openingPrice: u64, contracts: seq<Contract>, persona: Option<string>)

  datatype SeedError =
    | PriceNotPositive
    | NoExpirations
    | EmptyLadder
    | ZeroStrike
    | DuplicateStrike(strike: u64)
    | UndefinedPersona(name: string)
    | InvalidExpiry(raw: string)
    | NoStyles
    | UnknownStyle(raw: string)
    | InvalidSymbol(contract: Contract)

  // ---------------------------------------------------------------- styles

  function StyleOf(raw: string): Option<OptionStyle> {
    var name := Lower(Trim(raw));
    if name == "call" || name == "c" then Some(Call)
    else if name == "put" || name == "p" then Some(Put)
    else None
  }

  predicate StylesValid(styles: Option<seq<string>>) {
    styles.Some? ==> styles.value != [] && forall raw :: raw in styles.value ==> StyleOf(raw).Some?
  }

  predicate Asks(list: seq<string>, style: OptionStyle) {
    exists raw :: raw in list && StyleOf(raw) == Some(style)
  }

  /** Call before put, each at most once; both when none are listed. */
  function StylesOf(styles: Option<seq<string>>): seq<OptionStyle> {
    match styles
    case None => [Call, Put]
    case Some(list) => (if Asks(list, Call) then [Call] else []) + (if Asks(list, Put) then [Put] else [])
  }

  /** The spellings of the two styles, white space and letter case aside. */
  lemma StyleSpellings(raw: string)
    ensures StyleOf(raw) == Some(Call) <==> Lower(Trim(raw)) in ["call", "c"]
    ensures StyleOf(raw) == Some(Put) <==> Lower(Trim(raw)) in ["put", "p"]
    ensures StyleOf(raw) == None <==> Lower(Trim(raw)) !in ["call", "c", "put", "p"]
  {
    hide Lower, Trim;
  }

  lemma StylesSpelled(list: seq<string>)
    ensures Asks(list, Call) <==> exists raw :: raw in list && Lower(Trim(raw)) in ["call", "c"]
    ensures Asks(list, Put) <==> exists raw :: raw in list && Lower(Trim(raw)) in ["put", "p"]
    ensures (forall raw :: raw in list ==> StyleOf(raw).Some?)
       <==> forall raw :: raw in list ==> Lower(Trim(raw)) in ["call", "c", "put", "p"]
  {
    hide StyleOf, Lower, Trim;
    forall raw
      ensures StyleOf(raw) == Some(Call) <==> Lower(Trim(raw)) in ["call", "c"]
      ensures StyleOf(raw) == Some(Put) <==> Lower(Trim(raw)) in ["put", "p"]
      ensures StyleOf(raw) == None <==> Lower(Trim(raw)) !in ["call", "c", "put", "p"]
    {
      StyleSpellings(raw);
    }
  }

  method ResolveStyles(styles: Option<seq<string>>) returns (r: Result<seq<OptionStyle>, SeedError>)
    ensures styles.None? ==> r == Ok([Call, Put])
    ensures styles == Some([]) <==> r == Err(NoStyles)
    ensures r.Err? && r.error.UnknownStyle? <==>
              styles.Some? && exists raw :: raw in styles.value && Lower(Trim(raw)) !in ["call", "c", "put", "p"]
    ensures r.Err? && r.error != NoStyles ==>
              r.error.UnknownStyle? && r.error.raw in styles.value && Lower(Trim(r.error.raw)) !in ["call", "c", "put", "p"]
    ensures r.Ok? && styles.Some? ==> (Call in r.value <==> exists raw :: raw in styles.value && Lower(Trim(raw)) in ["call", "c"])
    ensures r.Ok? && styles.Some? ==> (Put in r.value <==> exists raw :: raw in styles.value && Lower(Trim(raw)) in ["put", "p"])
    ensures r.Ok? ==> r.value in [[Call], [Put], [Call, Put]]
    ensures r.Ok? <==> StylesValid(styles)
    ensures r.Ok? ==> r.value == StylesOf(styles)
  {
    hide StyleOf, Lower, Trim;
    if styles.None? {
      return Ok([Call, Put]);
    }
    var list := styles.value;
    StylesSpelled(list);
    if list == [] {
      return Err(NoStyles);
    }
    var hasCall, hasPut := false, false;
    for i := 0 to |list|
      invariant forall raw :: raw in list[..i] ==> StyleOf(raw).Some?
      invariant hasCall == Asks(list[..i], Call) && hasPut == Asks(list[..i], Put)
      invariant i > 0 ==> hasCall || hasPut
    {
      var style := StyleOf(list[i]);
      assert list[i] in list;
      assert list[..i + 1] == list[..i] + [list[i]];
      if style.None? {
        StyleSpellings(list[i]);
        return Err(UnknownStyle(list[i]));
      }
      assert list[i] in list[..i + 1];
      if style.value.Call? {
        hasCall := true;
      } else {
        hasPut := true;
      }
    }
    assert list[..|list|] == list;
    assert hasCall || hasPut;
    var out: seq<OptionStyle> := [];
    if hasCall {
      out := out + [Call];
    }
    if hasPut {
      out := out + [Put];
    }
    assert out == (if hasCall && hasPut then [Call, Put] else if hasCall then [Call] else [Put]);
    return Ok(out);
  }

  // ---------------------------------------------------------------- the ladder

  function Rung(expiration: u64, strike: u64, styles: seq<OptionStyle>, n: nat): seq<Contract>
    requires n <= |styles|
  {
    if n == 0 then [] else Rung(expiration, strike, styles, n - 1) + [Contract(expiration, strike, styles[n - 1])]
  }

  function Rungs(expiration: u64, strikes: seq<u64>, styles: seq<OptionStyle>, n: nat): seq<Contract>
    requires n <= |strikes|
  {
    if n == 0 then []
    else Rungs(expiration, strikes, styles, n - 1) + Rung(expiration, strikes[n - 1], styles, |styles|)
  }

  /** All contracts over the first `n` expirations, expiration by expiration, strike by strike, style by style. */
  function LadderOf(expirations: seq<u64>, strikes: seq<u64>, styles: seq<OptionStyle>, n: nat): seq<Contract>
    requires n <= |expirations|
  {
    if n == 0 then []
    else LadderOf(expirations, strikes, styles, n - 1) + Rungs(expirations[n - 1], strikes, styles, |strikes|)
  }

  lemma NothingBuilt(e: u64, k: u64, es: seq<u64>, strikes: seq<u64>, styles: seq<OptionStyle>)
    ensures Rung(e, k, styles, 0) == Rungs(e, strikes, styles, 0) == LadderOf(es, strikes, styles, 0) == []
  {}

  lemma RungGrows(e: u64, k: u64, styles: seq<OptionStyle>, n: nat)
    requires 0 < n <= |styles|
    ensures Rung(e, k, styles, n) == Rung(e, k, styles, n - 1) + [Contract(e, k, styles[n - 1])]
  {}

  lemma RungsGrow(e: u64, strikes: seq<u64>, styles: seq<OptionStyle>, n: nat)
    requires 0 < n <= |strikes|
    ensures Rungs(e, strikes, styles, n) == Rungs(e, strikes, styles, n - 1) + Rung(e, strikes[n - 1], styles, |styles|)
  {}

  lemma LadderGrows(es: seq<u64>, strikes: seq<u64>, styles: seq<OptionStyle>, n: nat)
    requires 0 < n <= |es|
    ensures LadderOf(es, strikes, styles, n)
         == LadderOf(es, strikes, styles, n - 1) + Rungs(es[n - 1], strikes, styles, |strikes|)
  {}

  // ---------------------------------------------------------------- expirations: sort, then drop repeats

  function Inserted(sorted: seq<u64>, key: u64): seq<u64> {
    if sorted == [] then [key]
    else if key < sorted[0] then [key] + sorted
    else [sorted[0]] + Inserted(sorted[1..], key)
  }

  function Sorted(keys: seq<u64>): seq<u64> {
    if keys == [] then [] else Inserted(Sorted(keys[..|keys| - 1]), keys[|keys| - 1])
  }

  function Dedup(keys: seq<u64>): seq<u64> {
    if |keys| <= 1 then keys
    else if keys[0] == keys[1] then Dedup(keys[1..])
    else [keys[0]] + Dedup(keys[1..])
  }

  predicate NonDescending(s: seq<u64>) {
    forall i, j :: 0 <= i < j < |s| ==> s[i] <= s[j]
  }

  function Members(s: seq<u64>): set<u64> {
    set x | x in s
  }

  lemma IsMember(s: seq<u64>, x: u64)
    ensures x in Members(s) <==> x in s
  {}

  lemma ConsMembers(x: u64, s: seq<u64>)
    ensures Members([x] + s) == {x} + Members(s)
  {}

  lemma ConsAscends(x: u64, s: seq<u64>)
    ensures NonDescending(s) && (forall y | y in Members(s) :: x <= y) ==> NonDescending([x] + s)
    ensures StrictlyAscending(s) && (forall y | y in Members(s) :: x < y) ==> StrictlyAscending([x] + s)
  {
    assert forall i :: 0 <= i < |s| ==> s[i] in Members(s);
  }

  lemma HeadIsLeast(s: seq<u64>)
    requires s != [] && NonDescending(s)
    ensures NonDescending(s[1..]) && forall y | y in Members(s) :: s[0] <= y
  {}

  lemma NothingPrecedes()
    ensures NonDescending([]) && Members([]) == {}
  {}

  lemma {:induction false} InsertedSorted(sorted: seq<u64>, key: u64)
    requires NonDescending(sorted)
    ensures NonDescending(Inserted(sorted, key))
    ensures Members(Inserted(sorted, key)) == Members(sorted) + {key}
  {
    hide NonDescending, Members;
    if sorted == [] {
      NothingPrecedes();
      assert [key] + [] == [key];
      ConsMembers(key, []);
      ConsAscends(key, []);
    } else {
      var head, rest := sorted[0], sorted[1..];
      assert sorted == [head] + rest;
      HeadIsLeast(sorted);
      ConsMembers(head, rest);
      if key < head {
        ConsMembers(key, sorted);
        ConsAscends(key, sorted);
      } else {
        InsertedSorted(rest, key);
        ConsMembers(head, Inserted(rest, key));
        ConsAscends(head, Inserted(rest, key));
      }
    }
  }

  lemma {:induction false} SortedSorts(keys: seq<u64>)
    ensures NonDescending(Sorted(keys)) && Members(Sorted(keys)) == Members(keys)
  {
    if keys != [] {
      var front, last := keys[..|keys| - 1], keys[|keys| - 1];
      SortedSorts(front);
      InsertedSorted(Sorted(front), last);
      assert keys == front + [last];
      assert Members(keys) == Members(front) + {last};
    }
  }

  lemma {:induction false} DedupAscends(keys: seq<u64>)
    requires NonDescending(keys)
    ensures StrictlyAscending(Dedup(keys)) && Members(Dedup(keys)) == Members(keys)
  {
    hide NonDescending, Members;
    if |keys| > 1 {
      var rest := keys[1..];
      HeadIsLeast(keys);
      DedupAscends(rest);
      assert keys == [keys[0]] + rest;
      ConsMembers(keys[0], rest);
      IsMember(rest, rest[0]);
      if keys[0] != keys[1] {
        HeadIsLeast(rest);
        ConsMembers(keys[0], Dedup(rest));
        ConsAscends(keys[0], Dedup(rest));
      }
    }
  }

  /** Sorting and dropping repeats lists the distinct keys once each, in order. */
  lemma SortDedupIsAscending(keys: seq<u64>)
    ensures Dedup(Sorted(keys)) == Ascending(Members(keys))
  {
    SortedSorts(keys);
    DedupAscends(Sorted(keys));
    var listed, ascending := Dedup(Sorted(keys)), Ascending(Members(keys));
    forall x: u64 ensures x in listed <==> x in ascending {
      assert x in listed <==> x in Members(listed);
    }
    AscendingUnique(listed, ascending);
  }

  // ---------------------------------------------------------------- what is accepted, and what it resolves to

  predicate Distinct(s: seq<u64>) {
    forall i, j :: 0 <= i < j < |s| ==> s[i] != s[j]
  }

  predicate ExpiriesValid(grammar: Grammar, expirations: seq<string>) {
    forall raw :: raw in expirations ==> grammar.parseExpiry(raw).Some?
  }

  function ExpiryKeys(grammar: Grammar, expirations: seq<string>): set<u64>
    requires ExpiriesValid(grammar, expirations)
  {
    set raw | raw in expirations :: grammar.parseExpiry(raw).value
  }

  /** The canonical contracts: distinct expirations, strikes and styles in their natural orders. */
  function Canonical(grammar: Grammar, f: FileInstrument): seq<Contract>
    requires ExpiriesValid(grammar, f.expirations)
  {
    var expirations := Ascending(ExpiryKeys(grammar, f.expirations));
    LadderOf(expirations, Ascending(Members(f.strikes)), StylesOf(f.styles), |expirations|)
  }

  predicate Resolvable(grammar: Grammar, f: FileInstrument, personas: set<string>) {
    && f.openingPriceCents > 0
    && f.expirations != []
    && f.strikes != [] && 0 !in f.strikes && Distinct(f.strikes)
    && (f.persona.Some? ==> f.persona.value in personas)
    && ExpiriesValid(grammar, f.expirations)
    && StylesValid(f.styles)
    && forall c :: c in Canonical(grammar, f) ==> grammar.accepts(c)
  }

  function Resolved(grammar: Grammar, f: FileInstrument, defaultPersona: Option<string>): SeedInstrumentSet
    requires ExpiriesValid(grammar, f.expirations)
  {
    SeedInstrumentSet(f.openingPriceCents, Canonical(grammar, f), if f.persona.Some? then f.persona else defaultPersona)
  }

  /** An error blames something that is really wrong, and everything checked before it is in order. */
  ghost predicate Blames(grammar: Grammar, f: FileInstrument, personas: set<string>, error: SeedError) {
    match error
    case PriceNotPositive => f.openingPriceCents == 0
    case NoExpirations => f.openingPriceCents > 0 && f.expirations == []
    case EmptyLadder => f.openingPriceCents > 0 && f.expirations != [] && f.strikes == []
    case ZeroStrike => f.openingPriceCents > 0 && f.expirations != [] && 0 in f.strikes
    case DuplicateStrike(strike) =>
      f.openingPriceCents > 0 && f.expirations != [] && exists i, j :: 0 <= i < j < |f.strikes| && f.strikes[i] == f.strikes[j] == strike
    case UndefinedPersona(name) => StrikesPass(f) && f.persona == Some(name) && name !in personas
    case InvalidExpiry(raw) => StrikesPass(f) && PersonaPasses(f, personas) && raw in f.expirations && grammar.parseExpiry(raw).None?
    case NoStyles => StrikesPass(f) && PersonaPasses(f, personas) && ExpiriesValid(grammar, f.expirations) && f.styles == Some([])
    case UnknownStyle(raw) =>
      StrikesPass(f) && PersonaPasses(f, personas) && ExpiriesValid(grammar, f.expirations)
      && f.styles.Some? && raw in f.styles.value && StyleOf(raw).None?
    case InvalidSymbol(contract) =>
      StrikesPass(f) && PersonaPasses(f, personas) && ExpiriesValid(grammar, f.expirations) && StylesValid(f.styles)
      && contract in Canonical(grammar, f) && !grammar.accepts(contract)
  }

  predicate StrikesPass(f: FileInstrument) {
    f.openingPriceCents > 0 && f.expirations != [] && f.strikes != [] && 0 !in f.strikes && Distinct(f.strikes)
  }

  predicate PersonaPasses(f: FileInstrument, personas: set<string>) {
    f.persona.Some? ==> f.persona.value in personas
  }

  // ---------------------------------------------------------------- the resolution itself

  /** Collects the strikes; a zero or a repeat is refused. */
  method CollectStrikes(strikes: seq<u64>) returns (r: Result<set<u64>, SeedError>)
    ensures r.Ok? <==> 0 !in strikes && Distinct(strikes)
    ensures r.Ok? ==> r.value == Members(strikes)
    ensures r.Err? ==> match r.error
                       case ZeroStrike => 0 in strikes
                       case DuplicateStrike(strike) => exists i, j :: 0 <= i < j < |strikes| && strikes[i] == strikes[j] == strike
                       case _ => false
  {
    var seen: set<u64> := {};
    for i := 0 to |strikes|
      invariant seen == Members(strikes[..i])
      invariant 0 !in strikes[..i] && Distinct(strikes[..i])
    {
      var strike := strikes[i];
      assert strike in strikes;
      assert strikes[..i + 1] == strikes[..i] + [strike];
      if strike == 0 {
        return Err(ZeroStrike);
      }
      if strike in seen {
        assert strike in strikes[..i];
        var k :| 0 <= k < i && strikes[..i][k] == strike;
        assert strikes[k] == strikes[i] == strike;
        return Err(DuplicateStrike(strike));
      }
      seen := seen + {strike};
    }
    assert strikes[..|strikes|] == strikes;
    return Ok(seen);
  }

  /** Reads every expiry, then sorts and drops repeats. */
  method CollectExpirations(grammar: Grammar, expirations: seq<string>) returns (r: Result<seq<u64>, SeedError>)
    ensures r.Ok? <==> ExpiriesValid(grammar, expirations)
    ensures r.Ok? ==> r.value == Ascending(ExpiryKeys(grammar, expirations))
    ensures r.Err? ==> r.error.InvalidExpiry? && r.error.raw in expirations && grammar.parseExpiry(r.error.raw).None?
  {
    var keys: seq<u64> := [];
    for i := 0 to |expirations|
      invariant ExpiriesValid(grammar, expirations[..i])
      invariant Members(keys) == ExpiryKeys(grammar, expirations[..i])
    {
      var raw := expirations[i];
      assert raw in expirations;
      assert expirations[..i + 1] == expirations[..i] + [raw];
      var parsed := grammar.parseExpiry(raw);
      if parsed.None? {
        return Err(InvalidExpiry(raw));
      }
      assert raw in expirations[..i + 1];
      assert ExpiryKeys(grammar, expirations[..i + 1]) == ExpiryKeys(grammar, expirations[..i]) + {parsed.value};
      assert Members(keys + [parsed.value]) == Members(keys) + {parsed.value};
      keys := keys + [parsed.value];
    }
    assert expirations[..|expirations|] == expirations;
    SortDedupIsAscending(keys);
    return Ok(Dedup(Sorted(keys)));
  }

  /** Builds the contracts in order, stopping at the first the grammar refuses. */
  method BuildContracts(grammar: Grammar, expirations: seq<u64>, strikes: seq<u64>, styles: seq<OptionStyle>)
    returns (r: Result<seq<Contract>, SeedError>)
    ensures r.Ok? <==> forall c :: c in LadderOf(expirations, strikes, styles, |expirations|) ==> grammar.accepts(c)
    ensures r.Ok? ==> r.value == LadderOf(expirations, strikes, styles, |expirations|)
    ensures r.Err? ==> r.error.InvalidSymbol? && !grammar.accepts(r.error.contract)
                       && r.error.contract in LadderOf(expirations, strikes, styles, |expirations|)
  {
    hide LadderOf, Rungs, Rung;
    var contracts: seq<Contract> := [];
    NothingBuilt(0, 0, expirations, strikes, styles);
    for i := 0 to |expirations|
      invariant contracts == LadderOf(expirations, strikes, styles, i)
      invariant forall c :: c in contracts ==> grammar.accepts(c)
    {
      NothingBuilt(expirations[i], 0, expirations, strikes, styles);
      for j := 0 to |strikes|
        invariant contracts == LadderOf(expirations, strikes, styles, i) + Rungs(expirations[i], strikes, styles, j)
        invariant forall c :: c in contracts ==> grammar.accepts(c)
      {
        NothingBuilt(expirations[i], strikes[j], expirations, strikes, styles);
        for k := 0 to |styles|
          invariant contracts == LadderOf(expirations, strikes, styles, i) + Rungs(expirations[i], strikes, styles, j)
                              + Rung(expirations[i], strikes[j], styles, k)
          invariant forall c :: c in contracts ==> grammar.accepts(c)
        {
          var contract := Contract(expirations[i], strikes[j], styles[k]);
          if !grammar.accepts(contract) {
            LadderMembers(expirations, strikes, styles, |expirations|, contract);
            return Err(InvalidSymbol(contract));
          }
          contracts := contracts + [contract];
          RungGrows(expirations[i], strikes[j], styles, k + 1);
        }
        RungsGrow(expirations[i], strikes, styles, j + 1);
      }
      LadderGrows(expirations, strikes, styles, i + 1);
    }
    return Ok(contracts);
  }

  method ResolveInstrument(grammar: Grammar, f: FileInstrument, personas: set<string>, defaultPersona: Option<string>)
    returns (r: Result<SeedInstrumentSet, SeedError>)
    ensures r.Ok? <==> Resolvable(grammar, f, personas)
    ensures r.Ok? ==> r.value == Resolved(grammar, f, defaultPersona)
    ensures r.Ok? ==> r.value.openingPrice == f.openingPriceCents
                      && r.value.persona == (if f.persona.Some? then f.persona else defaultPersona)
    ensures r.Err? ==> Blames(grammar, f, personas, r.error)
  {
    hide StyleOf, Lower, Trim, LadderOf, ExpiryKeys, StylesOf, Ascending, Members, Distinct, Asks;
    if f.openingPriceCents == 0 {
      return Err(PriceNotPositive);
    }
    if f.expirations == [] {
      return Err(NoExpirations);
    }
    if f.strikes == [] {
      return Err(EmptyLadder);
    }
    var strikes := CollectStrikes(f.strikes);
    if strikes.Err? {
      return Err(strikes.error);
    }
    var persona := defaultPersona;
    if f.persona.Some? {
      if f.persona.value !in personas {
        return Err(UndefinedPersona(f.persona.value));
      }
      persona := f.persona;
    }
    var expirations := CollectExpirations(grammar, f.expirations);
    if expirations.Err? {
      return Err(expirations.error);
    }
    var styles := ResolveStyles(f.styles);
    if styles.Err? {
      if styles.error.UnknownStyle? {
        StyleSpellings(styles.error.raw);
      }
      return Err(styles.error);
    }
    var contracts := BuildContracts(grammar, expirations.value, Ascending(strikes.value), styles.value);
    if contracts.Err? {
      return Err(contracts.error);
    }
    return Ok(SeedInstrumentSet(f.openingPriceCents, contracts.value, persona));
  }

  /**
   Which fault is blamed: the first that applies of price, expirations, strikes, persona,
   expiry tokens, styles and contract symbols, in that order.
   */
  lemma FirstFaultBlamed(grammar: Grammar, f: FileInstrument, personas: set<string>, error: SeedError)
    requires Blames(grammar, f, personas, error)
    ensures var started := f.openingPriceCents > 0 && f.expirations != [];
            var strikesPass :=
              f.strikes != [] && 0 !in f.strikes && forall i, j :: 0 <= i < j < |f.strikes| ==> f.strikes[i] != f.strikes[j];
            var personaPasses := f.persona.Some? ==> f.persona.value in personas;
            var expiriesPass := forall raw :: raw in f.expirations ==> grammar.parseExpiry(raw).Some?;
            && (error == PriceNotPositive <==> f.openingPriceCents == 0)
            && (error == NoExpirations <==> f.openingPriceCents > 0 && f.expirations == [])
            && (error == EmptyLadder <==> started && f.strikes == [])
            && (error.ZeroStrike? || error.DuplicateStrike? <==> started && f.strikes != [] && !strikesPass)
            && (error.UndefinedPersona? <==> started && strikesPass && !personaPasses)
            && (error.InvalidExpiry? <==> started && strikesPass && personaPasses && !expiriesPass)
            && (error.NoStyles? || error.UnknownStyle? || error.InvalidSymbol? <==>
                  started && strikesPass && personaPasses && expiriesPass)
            && (error.NoStyles? ==> f.styles == Some([]))
            && (error.UnknownStyle? ==> f.styles.Some? && error.raw in f.styles.value && StyleOf(error.raw).None?)
            && (error.InvalidSymbol? ==> (f.styles.Some? ==> f.styles.value != [] && forall raw :: raw in f.styles.value ==> StyleOf(raw).Some?))
  {
    hide StyleOf, Canonical;
  }

  /** What it takes to be accepted. */
  lemma ResolvableIff(grammar: Grammar, f: FileInstrument, personas: set<string>)
    ensures Resolvable(grammar, f, personas) <==>
              && f.openingPriceCents > 0 && f.expirations != [] && f.strikes != [] && 0 !in f.strikes
              && (forall i, j :: 0 <= i < j < |f.strikes| ==> f.strikes[i] != f.strikes[j])
              && (f.persona.Some? ==> f.persona.value in personas)
              && (forall raw :: raw in f.expirations ==> grammar.parseExpiry(raw).Some?)
              && (f.styles.Some? ==>
                    f.styles.value != [] && forall raw :: raw in f.styles.value ==> Lower(Trim(raw)) in ["call", "c", "put", "p"])
              && forall c :: c in Canonical(grammar, f) ==> grammar.accepts(c)
  {
    hide StyleOf, Canonical, Lower, Trim;
    if f.styles.Some? {
      StylesSpelled(f.styles.value);
    }
  }

  // ---------------------------------------------------------------- what a ladder is

  predicate StyleBefore(a: OptionStyle, b: OptionStyle) {
    a.Call? && b.Put?
  }

  /** Expiration, then strike, then call before put. */
  predicate Before(a: Contract, b: Contract) {
    || a.expiration < b.expiration
    || (a.expiration == b.expiration && a.strike < b.strike)
    || (a.expiration == b.expiration && a.strike == b.strike && StyleBefore(a.style, b.style))
  }

  ghost predicate StrictlyOrdered(s: seq<Contract>) {
    forall i, j :: 0 <= i < j < |s| ==> Before(s[i], s[j])
  }

  ghost predicate StylesOrdered(styles: seq<OptionStyle>) {
    forall i, j :: 0 <= i < j < |styles| ==> StyleBefore(styles[i], styles[j])
  }

  lemma OrderedAppend(a: seq<Contract>, b: seq<Contract>)
    requires StrictlyOrdered(a) && StrictlyOrdered(b)
    requires forall x, y :: x in a && y in b ==> Before(x, y)
    ensures StrictlyOrdered(a + b)
  {
    forall i, j | 0 <= i < j < |a + b| ensures Before((a + b)[i], (a + b)[j]) {
      if i < |a| && j >= |a| {
        assert a[i] in a && b[j - |a|] in b;
      }
    }
  }

  lemma TakeMembers<T>(s: seq<T>, n: nat, x: T)
    requires n <= |s|
    ensures n > 0 ==> (x in s[..n] <==> x in s[..n - 1] || x == s[n - 1])
    ensures x in s[..|s|] <==> x in s
  {
    assert s[..|s|] == s;
    if n > 0 {
      assert s[..n] == s[..n - 1] + [s[n - 1]];
    }
  }

  lemma {:induction false} RungMembers(e: u64, k: u64, styles: seq<OptionStyle>, n: nat, c: Contract)
    requires n <= |styles|
    ensures c in Rung(e, k, styles, n) <==> c.expiration == e && c.strike == k && c.style in styles[..n]
  {
    hide Rung;
    NothingBuilt(e, k, [], [], styles);
    if n > 0 {
      RungGrows(e, k, styles, n);
      RungMembers(e, k, styles, n - 1, c);
      TakeMembers(styles, n, c.style);
    }
  }

  lemma {:induction false} RungsMembers(e: u64, strikes: seq<u64>, styles: seq<OptionStyle>, n: nat, c: Contract)
    requires n <= |strikes|
    ensures c in Rungs(e, strikes, styles, n) <==> c.expiration == e && c.strike in strikes[..n] && c.style in styles
  {
    hide *;
    NothingBuilt(e, 0, [], strikes, styles);
    if n > 0 {
      RungsGrow(e, strikes, styles, n);
      RungsMembers(e, strikes, styles, n - 1, c);
      RungMembers(e, strikes[n - 1], styles, |styles|, c);
      TakeMembers(strikes, n, c.strike);
      TakeMembers(styles, |styles|, c.style);
    }
  }

  /** A ladder holds exactly the combinations of its expirations, strikes and styles. */
  lemma {:induction false} LadderMembers(es: seq<u64>, strikes: seq<u64>, styles: seq<OptionStyle>, n: nat, c: Contract)
    requires n <= |es|
    ensures c in LadderOf(es, strikes, styles, n) <==> c.expiration in es[..n] && c.strike in strikes && c.style in styles
  {
    hide *;
    NothingBuilt(0, 0, es, strikes, styles);
    if n > 0 {
      LadderGrows(es, strikes, styles, n);
      LadderMembers(es, strikes, styles, n - 1, c);
      RungsMembers(es[n - 1], strikes, styles, |strikes|, c);
      TakeMembers(es, n, c.expiration);
      TakeMembers(strikes, |strikes|, c.strike);
    }
  }

  lemma {:induction false} RungOrdered(e: u64, k: u64, styles: seq<OptionStyle>, n: nat)
    requires n <= |styles| && StylesOrdered(styles)
    ensures StrictlyOrdered(Rung(e, k, styles, n)) && |Rung(e, k, styles, n)| == n
  {
    if n > 0 {
      RungOrdered(e, k, styles, n - 1);
      var front, last := Rung(e, k, styles, n - 1), Contract(e, k, styles[n - 1]);
      forall x, y | x in front && y in [last] ensures Before(x, y) {
        RungMembers(e, k, styles, n - 1, x);
      }
      OrderedAppend(front, [last]);
    }
  }

  lemma AscendsPast(s: seq<u64>, n: nat, x: u64)
    requires StrictlyAscending(s) && n < |s| && x in s[..n]
    ensures x < s[n]
  {}

  lemma StrikePrecedes(e: u64, strikes: seq<u64>, styles: seq<OptionStyle>, n: nat, x: Contract, y: Contract)
    requires 0 < n <= |strikes| && StrictlyAscending(strikes)
    requires x in Rungs(e, strikes, styles, n - 1) && y in Rung(e, strikes[n - 1], styles, |styles|)
    ensures Before(x, y)
  {
    hide Rungs, Rung, StrictlyAscending;
    RungsMembers(e, strikes, styles, n - 1, x);
    RungMembers(e, strikes[n - 1], styles, |styles|, y);
    AscendsPast(strikes, n - 1, x.strike);
  }

  lemma ExpirationPrecedes(es: seq<u64>, strikes: seq<u64>, styles: seq<OptionStyle>, n: nat, x: Contract, y: Contract)
    requires 0 < n <= |es| && StrictlyAscending(es)
    requires x in LadderOf(es, strikes, styles, n - 1) && y in Rungs(es[n - 1], strikes, styles, |strikes|)
    ensures Before(x, y)
  {
    hide LadderOf, Rungs, StrictlyAscending;
    LadderMembers(es, strikes, styles, n - 1, x);
    RungsMembers(es[n - 1], strikes, styles, |strikes|, y);
    AscendsPast(es, n - 1, x.expiration);
  }

  lemma NothingOrdered()
    ensures StrictlyOrdered([])
  {}

  lemma {:induction false} RungsOrdered(e: u64, strikes: seq<u64>, styles: seq<OptionStyle>, n: nat)
    requires n <= |strikes| && StrictlyAscending(strikes) && StylesOrdered(styles)
    ensures StrictlyOrdered(Rungs(e, strikes, styles, n))
  {
    hide *;
    NothingOrdered();
    NothingBuilt(e, 0, [], strikes, styles);
    if n > 0 {
      var front, last := Rungs(e, strikes, styles, n - 1), Rung(e, strikes[n - 1], styles, |styles|);
      RungsGrow(e, strikes, styles, n);
      RungsOrdered(e, strikes, styles, n - 1);
      RungOrdered(e, strikes[n - 1], styles, |styles|);
      forall x, y | x in front && y in last ensures Before(x, y) {
        StrikePrecedes(e, strikes, styles, n, x, y);
      }
      OrderedAppend(front, last);
    }
  }

  lemma {:induction false} LadderOrdered(es: seq<u64>, strikes: seq<u64>, styles: seq<OptionStyle>, n: nat)
    requires n <= |es| && StrictlyAscending(es) && StrictlyAscending(strikes) && StylesOrdered(styles)
    ensures StrictlyOrdered(LadderOf(es, strikes, styles, n))
  {
    hide *;
    NothingOrdered();
    NothingBuilt(0, 0, es, strikes, styles);
    if n > 0 {
      var front, last := LadderOf(es, strikes, styles, n - 1), Rungs(es[n - 1], strikes, styles, |strikes|);
      LadderGrows(es, strikes, styles, n);
      LadderOrdered(es, strikes, styles, n - 1);
      RungsOrdered(es[n - 1], strikes, styles, |strikes|);
      forall x, y | x in front && y in last ensures Before(x, y) {
        ExpirationPrecedes(es, strikes, styles, n, x, y);
      }
      OrderedAppend(front, last);
    }
  }

  lemma {:induction false} RungSize(e: u64, k: u64, styles: seq<OptionStyle>, n: nat)
    requires n <= |styles|
    ensures |Rung(e, k, styles, n)| == n
  {
    if n > 0 {
      RungSize(e, k, styles, n - 1);
    }
  }

  lemma {:induction false} RungsSize(e: u64, strikes: seq<u64>, styles: seq<OptionStyle>, n: nat)
    requires n <= |strikes|
    ensures |Rungs(e, strikes, styles, n)| == n * |styles|
  {
    hide *;
    NothingBuilt(e, 0, [], strikes, styles);
    if n > 0 {
      RungsGrow(e, strikes, styles, n);
      RungsSize(e, strikes, styles, n - 1);
      RungSize(e, strikes[n - 1], styles, |styles|);
      MulStep(n - 1, |styles|);
    }
  }

  lemma {:induction false} LadderSize(es: seq<u64>, strikes: seq<u64>, styles: seq<OptionStyle>, n: nat)
    requires n <= |es|
    ensures |LadderOf(es, strikes, styles, n)| == n * (|strikes| * |styles|)
  {
    hide *;
    NothingBuilt(0, 0, es, strikes, styles);
    if n > 0 {
      LadderGrows(es, strikes, styles, n);
      LadderSize(es, strikes, styles, n - 1);
      RungsSize(es[n - 1], strikes, styles, |strikes|);
      MulStep(n - 1, |strikes| * |styles|);
    }
  }

  lemma StylesOfOrdered(styles: Option<seq<string>>)
    ensures StylesOrdered(StylesOf(styles))
  {}

  /**
   The canonical contracts are strictly ordered by expiration, strike and style, hence
   free of repeats, they are exactly all combinations, and their number is the product of
   the numbers of distinct expirations, strikes and styles.
   */
  lemma CanonicalIsLadder(grammar: Grammar, f: FileInstrument, c: Contract)
    requires ExpiriesValid(grammar, f.expirations)
    ensures var r := Canonical(grammar, f);
            forall i, j :: 0 <= i < j < |r| ==>
              || r[i].expiration < r[j].expiration
              || (r[i].expiration == r[j].expiration && r[i].strike < r[j].strike)
              || (r[i].expiration == r[j].expiration && r[i].strike == r[j].strike && r[i].style.Call? && r[j].style.Put?)
    ensures |Canonical(grammar, f)| == |ExpiryKeys(grammar, f.expirations)| * (|Members(f.strikes)| * |StylesOf(f.styles)|)
    ensures c in Canonical(grammar, f) <==>
              c.expiration in ExpiryKeys(grammar, f.expirations) && c.strike in f.strikes && c.style in StylesOf(f.styles)
  {
    hide LadderOf, ExpiryKeys, Members, StylesOf, Ascending, StylesOrdered;
    var es, strikes, styles := Ascending(ExpiryKeys(grammar, f.expirations)), Ascending(Members(f.strikes)), StylesOf(f.styles);
    StylesOfOrdered(f.styles);
    IsMember(f.strikes, c.strike);
    LadderOrdered(es, strikes, styles, |es|);
    LadderSize(es, strikes, styles, |es|);
    LadderMembers(es, strikes, styles, |es|, c);
    TakeMembers(es, |es|, c.expiration);
  }

  /**
   A contract is in the ladder exactly when some listed expiry token reads as its
   expiration, its strike is listed, and its style is asked for by one of its two names
   (or no styles are listed).
   */
  lemma CanonicalSpelled(grammar: Grammar, f: FileInstrument, c: Contract)
    requires ExpiriesValid(grammar, f.expirations)
    ensures c in Canonical(grammar, f) <==>
              && (exists raw :: raw in f.expirations && grammar.parseExpiry(raw) == Some(c.expiration))
              && c.strike in f.strikes
              && (f.styles.Some? ==>
                    exists raw :: raw in f.styles.value && Lower(Trim(raw)) in if c.style.Call? then ["call", "c"] else ["put", "p"])
  {
    hide Canonical, ExpiryKeys, Lower, Trim, StyleOf, StylesOf;
    CanonicalIsLadder(grammar, f, c);
    ExpiryNamed(grammar, f.expirations, c.expiration);
    StyleNamed(f.styles, c.style);
  }

  lemma ExpiryNamed(grammar: Grammar, expirations: seq<string>, key: u64)
    requires ExpiriesValid(grammar, expirations)
    ensures key in ExpiryKeys(grammar, expirations) <==> exists raw :: raw in expirations && grammar.parseExpiry(raw) == Some(key)
  {
    if raw :| raw in expirations && grammar.parseExpiry(raw) == Some(key) {
      assert grammar.parseExpiry(raw).value == key;
    }
  }

  lemma StyleNamed(styles: Option<seq<string>>, style: OptionStyle)
    ensures style in StylesOf(styles) <==>
              (styles.Some? ==>
                 exists raw :: raw in styles.value && Lower(Trim(raw)) in if style.Call? then ["call", "c"] else ["put", "p"])
  {
    hide Lower, Trim, StyleOf;
    if styles.Some? {
      StylesSpelled(styles.value);
    }
  }

  // ---------------------------------------------------------------- listing order does not matter

  lemma SameMembers<T>(a: seq<T>, b: seq<T>, x: T)
    requires multiset(a) == multiset(b)
    ensures x in a <==> x in b
  {
    assert x in multiset(a) <==> x in multiset(b);
  }

  lemma {:induction false} DistinctIff(s: seq<u64>)
    ensures Distinct(s) <==> forall x :: multiset(s)[x] <= 1
    decreases |s|
  {
    if s != [] {
      var front, last := s[..|s| - 1], s[|s| - 1];
      DistinctIff(front);
      assert s == front + [last];
      assert multiset(s) == multiset(front) + multiset{last};
      if Distinct(s) {
        assert last !in front;
        assert multiset(front)[last] == 0;
      } else if Distinct(front) {
        assert last in front;
        assert multiset(s)[last] >= 2;
      } else {
        var x :| multiset(front)[x] > 1;
        assert multiset(s)[x] > 1;
      }
    }
  }

  /** Two instruments that list the same expirations, strikes and styles, in any order. */
  ghost predicate Permuted(f: FileInstrument, g: FileInstrument) {
    && f.openingPriceCents == g.openingPriceCents
    && f.persona == g.persona
    && multiset(f.expirations) == multiset(g.expirations)
    && multiset(f.strikes) == multiset(g.strikes)
    && f.styles.Some? == g.styles.Some?
    && (f.styles.Some? ==> multiset(f.styles.value) == multiset(g.styles.value))
  }

  lemma PermutedStyles(f: FileInstrument, g: FileInstrument)
    requires Permuted(f, g)
    ensures StylesValid(f.styles) <==> StylesValid(g.styles)
    ensures StylesOf(f.styles) == StylesOf(g.styles)
  {
    if f.styles.Some? {
      var a, b := f.styles.value, g.styles.value;
      forall raw ensures raw in a <==> raw in b {
        SameMembers(a, b, raw);
      }
      assert |multiset(a)| == |a| && |multiset(b)| == |b|;
    }
  }

  lemma PermutedExpirations(grammar: Grammar, f: FileInstrument, g: FileInstrument)
    requires Permuted(f, g)
    ensures ExpiriesValid(grammar, f.expirations) <==> ExpiriesValid(grammar, g.expirations)
    ensures ExpiriesValid(grammar, f.expirations) ==> ExpiryKeys(grammar, f.expirations) == ExpiryKeys(grammar, g.expirations)
    ensures f.expirations == [] <==> g.expirations == []
  {
    forall raw ensures raw in f.expirations <==> raw in g.expirations {
      SameMembers(f.expirations, g.expirations, raw);
    }
    assert |multiset(f.expirations)| == |f.expirations| && |multiset(g.expirations)| == |g.expirations|;
  }

  lemma PermutedStrikes(f: FileInstrument, g: FileInstrument)
    requires Permuted(f, g)
    ensures Distinct(f.strikes) <==> Distinct(g.strikes)
    ensures Members(f.strikes) == Members(g.strikes)
    ensures f.strikes == [] <==> g.strikes == []
  {
    DistinctIff(f.strikes);
    DistinctIff(g.strikes);
    forall x ensures x in f.strikes <==> x in g.strikes {
      SameMembers(f.strikes, g.strikes, x);
    }
    assert |multiset(f.strikes)| == |f.strikes| && |multiset(g.strikes)| == |g.strikes|;
  }

  /**
   The order in which expirations, strikes and styles are listed does not matter: either
   both listings are refused, or both are accepted and resolve to the same contracts in
   the same order.
   */
  lemma ListingOrderIrrelevant(grammar: Grammar, f: FileInstrument, g: FileInstrument, personas: set<string>, defaultPersona: Option<string>)
    requires Permuted(f, g)
    ensures Resolvable(grammar, f, personas) <==> Resolvable(grammar, g, personas)
    ensures Resolvable(grammar, f, personas) ==> Resolved(grammar, f, defaultPersona) == Resolved(grammar, g, defaultPersona)
  {
    PermutedStyles(f, g);
    PermutedExpirations(grammar, f, g);
    PermutedStrikes(f, g);
    assert 0 in f.strikes <==> 0 in Members(f.strikes);
    assert 0 in g.strikes <==> 0 in Members(g.strikes);
    hide Distinct, StylesValid, StylesOf, ExpiryKeys, Members, LadderOf;
  }
}
