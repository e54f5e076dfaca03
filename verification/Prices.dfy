/** Choosing one price row for an event, freezing its cost onto the event, and repricing. */
module Prices {
  import opened Wrappers

  datatype Origin = Manual | LiteLlmLive | LiteLlmPublic

  /** Dollars per million tokens. */
  datatype Rates = Rates(input: real, cachedInput: real, cacheWrite: real, output: real)

  datatype Price = Price(
    id: nat,
    provider: Option<string>,
    model: string,
    tier: Option<string>,
    minInput: int,
    origin: Origin,
    effectiveFrom: int,
    rates: Rates)

  datatype Tokens = Tokens(input: int, cacheRead: int, cacheWrite: int, output: int)

  /** `charged` is what the gateway reported when the event was stored. */
  datatype Event = Event(
    id: nat,
    source: nat,
    account: nat,
    provider: string,
    model: string,
    alias: Option<string>,
    tier: Option<string>,
    at: int,
    tokens: Tokens,
    charged: Option<real>,
    price: Option<nat>,
    listCost: Option<real>,
    billedCost: Option<real>)

  /** `pricedAs` names the key to look a model up under when its own is not priced. */
  datatype State = State(
    prices: seq<Price>,
    events: seq<Event>,
    oauth: set<nat>,
    litellm: set<nat>,
    pricedAs: map<string, string>)

  // ---------------------------------------------------------------- which row, and how good

  predicate NamesModel(p: Price, e: Event, pricedAs: map<string, string>) {
    || p.model == e.model
    || Some(p.model) == e.alias
    || (e.model in pricedAs && p.model == pricedAs[e.model])
    || (p.model == e.provider + "/" + e.model && p.provider == Some(e.provider))
  }

  predicate Eligible(p: Price, e: Event, pricedAs: map<string, string>) {
    && NamesModel(p, e, pricedAs)
    && (p.origin != Manual || p.provider.None? || p.provider == Some(e.provider))
    && (p.tier.None? || p.tier == e.tier)
    && p.minInput <= e.tokens.input
    && p.effectiveFrom <= e.at
  }

  function Flag(b: bool): int { if b then 1 else 0 }

  function Trust(origin: Origin): int {
    match origin
    case Manual => 2
    case LiteLlmLive => 1
    case LiteLlmPublic => 0
  }

  /** What the rows of an event are ordered by, first column first, the greater the better. */
  function Rank(p: Price, e: Event): (r: seq<int>)
    ensures |r| == 7 && r[6] == p.id
  {
    [ Flag(p.model == e.model),
      Flag(p.tier.Some?),
      Trust(p.origin),
      p.minInput,
      Flag(p.provider.Some?),
      p.effectiveFrom,
      p.id ]
  }

  predicate Above(a: seq<int>, b: seq<int>)
    requires |a| == |b|
  {
    a != [] && (a[0] > b[0] || (a[0] == b[0] && Above(a[1..], b[1..])))
  }

  lemma {:induction false} AboveIsTotal(a: seq<int>, b: seq<int>)
    requires |a| == |b|
    ensures Above(a, b) || a == b || Above(b, a)
    ensures !(Above(a, b) && Above(b, a)) && (a == b ==> !Above(a, b))
  {
    if a != [] {
      AboveIsTotal(a[1..], b[1..]);
      assert a == [a[0]] + a[1..] && b == [b[0]] + b[1..];
    }
  }

  lemma {:induction false} AboveIsTransitive(a: seq<int>, b: seq<int>, c: seq<int>)
    requires |a| == |b| == |c| && Above(a, b) && Above(b, c)
    ensures Above(a, c)
  {
    if a[0] == b[0] == c[0] {
      AboveIsTransitive(a[1..], b[1..], c[1..]);
    }
  }

  function BestOf(prices: seq<Price>, e: Event, pricedAs: map<string, string>): Option<Price> {
    if prices == [] then None
    else
      var p, best := prices[|prices| - 1], BestOf(prices[..|prices| - 1], e, pricedAs);
      if !Eligible(p, e, pricedAs) || (best.Some? && !Above(Rank(p, e), Rank(best.value, e))) then best else Some(p)
  }

  predicate DistinctIds(prices: seq<Price>) {
    forall i, j :: 0 <= i < j < |prices| ==> prices[i].id != prices[j].id
  }

  /** The eligible row above every other eligible row. */
  predicate IsBest(prices: seq<Price>, e: Event, pricedAs: map<string, string>, p: Price) {
    && p in prices && Eligible(p, e, pricedAs)
    && forall q :: q in prices && Eligible(q, e, pricedAs) && q != p ==> Above(Rank(p, e), Rank(q, e))
  }

  lemma {:induction false} BestIsTheMaximum(prices: seq<Price>, e: Event, pricedAs: map<string, string>)
    requires DistinctIds(prices)
    ensures var best := BestOf(prices, e, pricedAs);
            if best.Some? then IsBest(prices, e, pricedAs, best.value)
            else forall p :: p in prices ==> !Eligible(p, e, pricedAs)
  {
    hide Eligible, Above;
    if prices != [] {
      var n := |prices| - 1;
      var rest, p := prices[..n], prices[n];
      BestIsTheMaximum(rest, e, pricedAs);
      assert prices == rest + [p];
      var before, best := BestOf(rest, e, pricedAs), BestOf(prices, e, pricedAs);
      if Eligible(p, e, pricedAs) && before.Some? {
        var b := before.value;
        assert p.id != b.id;
        AboveIsTotal(Rank(p, e), Rank(b, e));
        forall q | q in prices && Eligible(q, e, pricedAs) && q != best.value
          ensures Above(Rank(best.value, e), Rank(q, e))
        {
          if best.value == p && q != b { AboveIsTransitive(Rank(p, e), Rank(b, e), Rank(q, e)); }
        }
      }
    }
  }

  /** The same rows stored in any order choose the same price. */
  lemma TableOrderDoesNotMatter(some: seq<Price>, others: seq<Price>, e: Event, pricedAs: map<string, string>)
    requires DistinctIds(some) && DistinctIds(others)
    requires forall p :: p in some <==> p in others
    ensures BestOf(some, e, pricedAs) == BestOf(others, e, pricedAs)
  {
    hide Eligible, Above, BestOf;
    BestIsTheMaximum(some, e, pricedAs);
    BestIsTheMaximum(others, e, pricedAs);
    var a, b := BestOf(some, e, pricedAs), BestOf(others, e, pricedAs);
    if a.Some? && b.Some? {
      AboveIsTotal(Rank(a.value, e), Rank(b.value, e));
    }
  }

  /** Which rows may price an event, field by field. */
  lemma ChosenFits(prices: seq<Price>, e: Event, pricedAs: map<string, string>, p: Price)
    requires DistinctIds(prices) && BestOf(prices, e, pricedAs) == Some(p)
    ensures p in prices && p.minInput <= e.tokens.input && p.effectiveFrom <= e.at
    ensures p.tier == None || p.tier == e.tier
    ensures p.origin == Manual ==> p.provider == None || p.provider == Some(e.provider)
    ensures p.model == e.model || Some(p.model) == e.alias
            || (e.model in pricedAs && pricedAs[e.model] == p.model)
            || (p.provider == Some(e.provider) && p.model == e.provider + "/" + e.model)
  {
    BestIsTheMaximum(prices, e, pricedAs);
  }

  /** And a row that may is beaten only by one that may: whatever it names the model by, from when
      and from how many tokens on. */
  lemma FittingRowIsPriced(prices: seq<Price>, e: Event, pricedAs: map<string, string>, q: Price)
    requires DistinctIds(prices) && q in prices && q.minInput <= e.tokens.input && q.effectiveFrom <= e.at
    requires q.tier == None || q.tier == e.tier
    requires q.origin == Manual ==> q.provider == None || q.provider == Some(e.provider)
    requires q.model == e.model || Some(q.model) == e.alias
             || (e.model in pricedAs && pricedAs[e.model] == q.model)
             || (q.provider == Some(e.provider) && q.model == e.provider + "/" + e.model)
    ensures BestOf(prices, e, pricedAs).Some?
    ensures var p := BestOf(prices, e, pricedAs).value; p == q || Above(Rank(p, e), Rank(q, e))
  {
    BestIsTheMaximum(prices, e, pricedAs);
  }

  /** Which of two rows is preferred, field by field: the exact model name, then a service tier of
      its own, then manual over live over public, then the higher threshold, then a provider of its
      own, then the later start, then the later row. */
  lemma PreferredExactlyWhen(p: Price, q: Price, e: Event)
    ensures Above(Rank(p, e), Rank(q, e)) <==>
              if p.model == e.model && q.model != e.model then true
              else if p.model != e.model && q.model == e.model then false
              else if p.tier != None && q.tier == None then true
              else if p.tier == None && q.tier != None then false
              else if p.origin != q.origin then p.origin == Manual || q.origin == LiteLlmPublic
              else if p.minInput != q.minInput then p.minInput > q.minInput
              else if p.provider != None && q.provider == None then true
              else if p.provider == None && q.provider != None then false
              else if p.effectiveFrom != q.effectiveFrom then p.effectiveFrom > q.effectiveFrom
              else p.id > q.id
  {
    var a, b := Rank(p, e), Rank(q, e);
    LexicographicallyAbove(a, b);
  }

  lemma LexicographicallyAbove(a: seq<int>, b: seq<int>)
    requires |a| == |b| == 7
    ensures Above(a, b) <==>
              if a[0] != b[0] then a[0] > b[0]
              else if a[1] != b[1] then a[1] > b[1]
              else if a[2] != b[2] then a[2] > b[2]
              else if a[3] != b[3] then a[3] > b[3]
              else if a[4] != b[4] then a[4] > b[4]
              else if a[5] != b[5] then a[5] > b[5]
              else a[6] > b[6]
  {
    assert Above(a[7..], b[7..]) == false;
    OneColumn(a, b, 6);
    OneColumn(a, b, 5);
    OneColumn(a, b, 4);
    OneColumn(a, b, 3);
    OneColumn(a, b, 2);
    OneColumn(a, b, 1);
    OneColumn(a, b, 0);
    assert a[0..] == a && b[0..] == b;
  }

  lemma OneColumn(a: seq<int>, b: seq<int>, k: nat)
    requires |a| == |b| && k < |a|
    ensures Above(a[k..], b[k..]) <==> a[k] > b[k] || (a[k] == b[k] && Above(a[k + 1..], b[k + 1..]))
  {
    assert a[k..][1..] == a[k + 1..] && b[k..][1..] == b[k + 1..];
  }

  // ---------------------------------------------------------------- what an event costs

  function Uncached(t: Tokens): int {
    var rest := t.input - t.cacheRead - t.cacheWrite;
    if rest > 0 then rest else 0
  }

  function ListCost(r: Rates, t: Tokens): real {
    ( Uncached(t) as real * r.input
    + t.cacheRead as real * r.cachedInput
    + t.cacheWrite as real * r.cacheWrite
    + t.output as real * r.output) / 1000000.0
  }

  /** Cached tokens are not paid for twice: what was neither read from nor written to a cache is the
      rest of the input, or nothing when the parts exceed it. */
  lemma ListCostExactly(r: Rates, t: Tokens)
    ensures t.cacheRead + t.cacheWrite <= t.input ==>
              ListCost(r, t) * 1000000.0 ==
                (t.input - t.cacheRead - t.cacheWrite) as real * r.input + t.cacheRead as real * r.cachedInput
                + t.cacheWrite as real * r.cacheWrite + t.output as real * r.output
    ensures t.cacheRead + t.cacheWrite > t.input ==>
              ListCost(r, t) * 1000000.0 ==
                t.cacheRead as real * r.cachedInput + t.cacheWrite as real * r.cacheWrite + t.output as real * r.output
  {
  }

  /** The price and costs an unpriced event takes; an event no price matches is left alone. */
  function Filled(s: State, e: Event): Event {
    var best := BestOf(s.prices, e, s.pricedAs);
    if e.listCost.Some? || best.None? then e
    else
      var cost := ListCost(best.value.rates, e.tokens);
      e.(
        price := Some(best.value.id),
        listCost := Some(cost),
        billedCost :=
          if e.billedCost.Some? then e.billedCost
          else Some(if e.account in s.oauth then 0.0 else cost))
  }

  function FillOf(s: State): State {
    s.(events := seq(|s.events|, i requires 0 <= i < |s.events| => Filled(s, s.events[i])))
  }

  predicate InRange(e: Event, from: Option<int>, to: Option<int>) {
    (from.None? || e.at >= from.value) && (to.None? || e.at <= to.value)
  }

  function Cleared(s: State, e: Event): Event {
    e.(price := None, listCost := None, billedCost := if e.source in s.litellm then e.billedCost else None)
  }

  function ClearOf(s: State, from: Option<int>, to: Option<int>): State {
    s.(events := seq(|s.events|, i requires 0 <= i < |s.events| =>
      if InRange(s.events[i], from, to) then Cleared(s, s.events[i]) else s.events[i]))
  }

  function RepriceOf(s: State, from: Option<int>, to: Option<int>): State { FillOf(ClearOf(s, from, to)) }

  function Covered(events: seq<Event>, from: Option<int>, to: Option<int>): nat {
    if events == [] then 0
    else Covered(events[..|events| - 1], from, to) + (if InRange(events[|events| - 1], from, to) then 1 else 0)
  }

  // ---------------------------------------------------------------- the statements

  function Unpriced(s: State, n: nat): seq<nat>
    requires n <= |s.events|
  {
    if n == 0 then []
    else
      Unpriced(s, n - 1)
      + (if Filled(s, s.events[n - 1]) != s.events[n - 1] then [s.events[n - 1].id] else [])
  }

  class Book {
    var prices: seq<Price>
    var events: seq<Event>
    var oauth: set<nat>
    var litellm: set<nat>
    var pricedAs: map<string, string>

    constructor (pricedAs: map<string, string>)
      ensures Now() == State([], [], {}, {}, pricedAs)
    {
      prices, events, oauth, litellm, this.pricedAs := [], [], {}, {}, pricedAs;
    }

    ghost function Now(): State
      reads this
    {
      State(prices, events, oauth, litellm, pricedAs)
    }

    method Choose(e: Event) returns (best: Option<Price>)
      ensures best == BestOf(prices, e, pricedAs)
    {
      best := None;
      for i := 0 to |prices|
        invariant best == BestOf(prices[..i], e, pricedAs)
      {
        var p := prices[i];
        assert prices[..i + 1][..i] == prices[..i];
        if Eligible(p, e, pricedAs) && (best.None? || Above(Rank(p, e), Rank(best.value, e))) { best := Some(p); }
      }
      assert prices[..|prices|] == prices;
    }

    /** Prices every unpriced event it can, and answers which. */
    method Fill() returns (priced: seq<nat>)
      modifies this`events
      ensures Now() == FillOf(old(Now()))
      ensures priced == Unpriced(old(Now()), |old(events)|)
    {
      hide BestOf;
      priced := [];
      ghost var was := Now();
      for i := 0 to |events|
        invariant |events| == |was.events| && Now() == was.(events := events)
        invariant forall k :: 0 <= k < i ==> events[k] == Filled(was, was.events[k])
        invariant forall k :: i <= k < |events| ==> events[k] == was.events[k]
        invariant priced == Unpriced(was, i)
      {
        var e := events[i];
        if e.listCost.None? {
          var best := Choose(e);
          if best.Some? {
            var cost := ListCost(best.value.rates, e.tokens);
            var billed := if e.billedCost.Some? then e.billedCost else Some(if e.account in oauth then 0.0 else cost);
            events := events[i := e.(price := Some(best.value.id), listCost := Some(cost), billedCost := billed)];
            priced := priced + [e.id];
          }
        }
      }
      assert events == FillOf(was).events;
    }

    method Reprice(from: Option<int>, to: Option<int>) returns (cleared: nat, priced: seq<nat>)
      modifies this`events
      ensures Now() == RepriceOf(old(Now()), from, to)
      ensures cleared == Covered(old(events), from, to)
      ensures priced == Unpriced(ClearOf(old(Now()), from, to), |old(events)|)
    {
      cleared := 0;
      ghost var was := Now();
      for i := 0 to |events|
        invariant |events| == |was.events| && Now() == was.(events := events)
        invariant cleared == Covered(was.events[..i], from, to)
        invariant forall k :: 0 <= k < i ==> events[k] == ClearOf(was, from, to).events[k]
        invariant forall k :: i <= k < |events| ==> events[k] == was.events[k]
      {
        var e := events[i];
        assert was.events[..i + 1][..i] == was.events[..i];
        if InRange(e, from, to) {
          var billed := if e.source in litellm then e.billedCost else None;
          events := events[i := e.(price := None, listCost := None, billedCost := billed)];
          cleared := cleared + 1;
        }
      }
      assert Now() == ClearOf(was, from, to) && was.events[..|events|] == was.events;
      priced := Fill();
    }
  }

  // ---------------------------------------------------------------- every run

  /** Price rows are added and never edited; a credential's kind and the configuration may change. */
  datatype Step =
    | AddingPrice(price: Price)
    | AddingSource(source: nat)
    | AddingEvent(event: Event)
    | Reclassifying(oauth: set<nat>)
    | Reconfiguring(pricedAs: map<string, string>)
    | Filling
    | Repricing(from: Option<int>, to: Option<int>)

  predicate Enabled(s: State, step: Step) {
    match step
    case AddingPrice(p) => forall q :: q in s.prices ==> q.id != p.id
    case AddingSource(source) => forall e :: e in s.events ==> e.source != source
    case AddingEvent(e) => e.price.None? && e.listCost.None? && e.billedCost == e.charged
        && (e.charged.Some? ==> e.source in s.litellm)
    case _ => true
  }

  function Next(s: State, step: Step): State {
    match step
    case AddingPrice(p) => s.(prices := s.prices + [p])
    case AddingSource(source) => s.(litellm := s.litellm + {source})
    case AddingEvent(e) => s.(events := s.events + [e])
    case Reclassifying(oauth) => s.(oauth := oauth)
    case Reconfiguring(pricedAs) => s.(pricedAs := pricedAs)
    case Filling => FillOf(s)
    case Repricing(from, to) => RepriceOf(s, from, to)
  }

  predicate Runs(s: State, steps: seq<Step>)
    decreases |steps|
  {
    steps == [] || (Enabled(s, steps[0]) && Runs(Next(s, steps[0]), steps[1..]))
  }

  function After(s: State, steps: seq<Step>): State
    requires Runs(s, steps)
    decreases |steps|
  {
    if steps == [] then s else After(Next(s, steps[0]), steps[1..])
  }

  const EMPTY: State := State([], [], {}, {}, map[])

  /** An event is unpriced, or carries the cost its own price row gives it; a charge its gateway
      reported stays what is billed. */
  predicate Priced(prices: seq<Price>, litellm: set<nat>, e: Event) {
    && (e.price.Some? <==> e.listCost.Some?)
    && (e.price.Some? ==>
          exists i :: 0 <= i < |prices| && prices[i].id == e.price.value
              && e.listCost == Some(ListCost(prices[i].rates, e.tokens)))
    && (e.charged.Some? ==> e.billedCost == e.charged && e.source in litellm)
    && (e.listCost.Some? ==> e.billedCost.Some?)
  }

  predicate Inv(s: State) {
    DistinctIds(s.prices) && forall i :: 0 <= i < |s.events| ==> Priced(s.prices, s.litellm, s.events[i])
  }

  lemma FilledIsPriced(s: State, e: Event)
    requires DistinctIds(s.prices) && Priced(s.prices, s.litellm, e)
    ensures Priced(s.prices, s.litellm, Filled(s, e))
  {
    hide ListCost, BestOf, Eligible, Above;
    BestIsTheMaximum(s.prices, e, s.pricedAs);
  }

  lemma FillKeeps(s: State)
    requires Inv(s)
    ensures Inv(FillOf(s))
  {
    hide Priced, Filled;
    forall i | 0 <= i < |s.events| ensures Priced(s.prices, s.litellm, FillOf(s).events[i]) {
      FilledIsPriced(s, s.events[i]);
    }
  }

  lemma ClearKeeps(s: State, from: Option<int>, to: Option<int>)
    requires Inv(s)
    ensures Inv(ClearOf(s, from, to))
  {
  }

  lemma AddingKeeps(s: State, step: Step)
    requires Inv(s) && Enabled(s, step) && !step.Filling? && !step.Repricing?
    ensures Inv(Next(s, step))
  {
    hide ListCost;
    var n := Next(s, step);
    forall i | 0 <= i < |n.events| ensures Priced(n.prices, n.litellm, n.events[i]) {
      if i < |s.events| {
        assert Priced(s.prices, s.litellm, s.events[i]);
        if s.events[i].price.Some? {
          var k :| 0 <= k < |s.prices| && s.prices[k].id == s.events[i].price.value
                   && s.events[i].listCost == Some(ListCost(s.prices[k].rates, s.events[i].tokens));
          assert n.prices[k] == s.prices[k];
        }
      }
    }
  }

  lemma StepKeeps(s: State, step: Step)
    requires Inv(s) && Enabled(s, step)
    ensures Inv(Next(s, step))
  {
    hide Inv, FillOf, ClearOf;
    match step
    case Filling => FillKeeps(s);
    case Repricing(from, to) =>
      ClearKeeps(s, from, to);
      FillKeeps(ClearOf(s, from, to));
    case _ => AddingKeeps(s, step);
  }

  lemma {:induction false} RunKeeps(s: State, steps: seq<Step>)
    requires Inv(s) && Runs(s, steps)
    ensures Inv(After(s, steps))
    decreases |steps|
  {
    if steps != [] {
      StepKeeps(s, steps[0]);
      RunKeeps(Next(s, steps[0]), steps[1..]);
    }
  }

  // ---------------------------------------------------------------- the four parts of a cost

  datatype Parts = Parts(uncachedInput: real, cacheRead: real, cacheWrite: real, output: real)

  const NO_PARTS: Parts := Parts(0.0, 0.0, 0.0, 0.0)

  function Sum(p: Parts): real { p.uncachedInput + p.cacheRead + p.cacheWrite + p.output }

  function RowOf(prices: seq<Price>, id: Option<nat>): Option<Price> {
    if prices == [] || id.None? then None
    else if prices[0].id == id.value then Some(prices[0])
    else RowOf(prices[1..], id)
  }

  /** The parts an analytics answer reports for one event, read through its own price row. */
  function PartsOf(prices: seq<Price>, e: Event): Parts {
    match RowOf(prices, e.price)
    case None => NO_PARTS
    case Some(p) =>
      Parts(
        Uncached(e.tokens) as real * p.rates.input / 1000000.0,
        e.tokens.cacheRead as real * p.rates.cachedInput / 1000000.0,
        e.tokens.cacheWrite as real * p.rates.cacheWrite / 1000000.0,
        e.tokens.output as real * p.rates.output / 1000000.0)
  }

  function Add(a: Parts, b: Parts): Parts {
    Parts(a.uncachedInput + b.uncachedInput, a.cacheRead + b.cacheRead, a.cacheWrite + b.cacheWrite, a.output
        + b.output)
  }

  function TotalParts(prices: seq<Price>, events: seq<Event>): Parts {
    if events == [] then NO_PARTS
        else Add(TotalParts(prices, events[..|events| - 1]), PartsOf(prices, events[|events| - 1]))
  }

  function TotalListCost(events: seq<Event>): real {
    if events == [] then 0.0
    else
      var last := events[|events| - 1].listCost;
      TotalListCost(events[..|events| - 1]) + (if last.Some? then last.value else 0.0)
  }

  lemma {:induction false} RowIsFound(prices: seq<Price>, i: nat)
    requires DistinctIds(prices) && i < |prices|
    ensures RowOf(prices, Some(prices[i].id)) == Some(prices[i])
  {
    if i > 0 {
      RowIsFound(prices[1..], i - 1);
    }
  }

  lemma PartsOfOne(prices: seq<Price>, litellm: set<nat>, e: Event)
    requires DistinctIds(prices) && Priced(prices, litellm, e)
    ensures Sum(PartsOf(prices, e)) == if e.listCost.Some? then e.listCost.value else 0.0
  {
    if e.price.Some? {
      var i :| 0 <= i < |prices| && prices[i].id == e.price.value
          && e.listCost == Some(ListCost(prices[i].rates, e.tokens));
      RowIsFound(prices, i);
    }
  }

  lemma {:induction false} PartsOfAll(prices: seq<Price>, litellm: set<nat>, events: seq<Event>)
    requires DistinctIds(prices) && forall i :: 0 <= i < |events| ==> Priced(prices, litellm, events[i])
    ensures Sum(TotalParts(prices, events)) == TotalListCost(events)
  {
    hide Priced, PartsOf;
    if events != [] {
      PartsOfAll(prices, litellm, events[..|events| - 1]);
      PartsOfOne(prices, litellm, events[|events| - 1]);
    }
  }

  /** Whatever was added, filled and repriced, the four parts of any selection of events add up
      to its list cost. */
  lemma PartsAddUp(steps: seq<Step>, lo: nat, hi: nat)
    requires Runs(EMPTY, steps) && lo <= hi <= |After(EMPTY, steps).events|
    ensures var s := After(EMPTY, steps); Sum(TotalParts(s.prices, s.events[lo..hi])) == TotalListCost(s.events[lo..hi])
  {
    RunKeeps(EMPTY, steps);
    var s := After(EMPTY, steps);
    PartsOfAll(s.prices, s.litellm, s.events[lo..hi]);
  }

  // ---------------------------------------------------------------- frozen costs and repricing

  /** Only a reprice that covers it changes a priced event. */
  lemma PricedEventsAreFrozen(s: State, step: Step, i: nat)
    requires Enabled(s, step) && i < |s.events| && s.events[i].listCost.Some?
    requires step.Repricing? ==> !InRange(s.events[i], step.from, step.to)
    ensures i < |Next(s, step).events| && Next(s, step).events[i] == s.events[i]
  {
  }

  /** The event as far as choosing and pricing it goes. */
  function Bare(e: Event): Event { e.(price := None, listCost := None, billedCost := None) }

  lemma {:induction false} ChoiceIgnoresCosts(prices: seq<Price>, e: Event, f: Event, pricedAs: map<string, string>)
    requires Bare(e) == Bare(f)
    ensures BestOf(prices, e, pricedAs) == BestOf(prices, f, pricedAs)
  {
    if prices != [] {
      ChoiceIgnoresCosts(prices[..|prices| - 1], e, f, pricedAs);
      var p := prices[|prices| - 1];
      assert Bare(e).model == Bare(f).model && Bare(e).alias == Bare(f).alias && Bare(e).provider == Bare(f).provider;
      assert Bare(e).tier == Bare(f).tier && Bare(e).tokens == Bare(f).tokens && Bare(e).at == Bare(f).at;
      assert Eligible(p, e, pricedAs) == Eligible(p, f, pricedAs);
      assert forall q: Price :: Rank(q, e) == Rank(q, f);
    }
  }

  /** A second pass finds nothing more to price. */
  lemma FillIsIdempotent(s: State)
    ensures FillOf(FillOf(s)) == FillOf(s)
    ensures Unpriced(FillOf(s), |s.events|) == []
  {
    hide BestOf;
    var f := FillOf(s);
    forall i | 0 <= i < |s.events| ensures Filled(f, f.events[i]) == f.events[i] {}
    NothingUnpriced(f, |f.events|);
    assert FillOf(f).events == f.events;
  }

  lemma {:induction false} NothingUnpriced(s: State, n: nat)
    requires n <= |s.events| && forall i :: 0 <= i < n ==> Filled(s, s.events[i]) == s.events[i]
    ensures Unpriced(s, n) == []
  {
    hide Filled;
    if n > 0 {
      NothingUnpriced(s, n - 1);
    }
  }

  /** What pricing an event from scratch gives. */
  function ScratchList(s: State, e: Event): Option<real> {
    var best := BestOf(s.prices, e, s.pricedAs);
    if best.None? then None else Some(ListCost(best.value.rates, e.tokens))
  }

  function ScratchBilled(s: State, e: Event): Option<real> {
    if e.charged.Some? then e.charged
    else if ScratchList(s, e).None? then None
    else if e.account in s.oauth then Some(0.0)
    else ScratchList(s, e)
  }

  /** A reprice of everything gives every event its list cost from scratch. It bills from scratch
      too, except an event of a LiteLLM source that reported no charge and was billed before at
      another amount: that computed amount is kept as if the gateway had charged it. */
  lemma RepriceIsFromScratch(s: State, i: nat)
    requires Inv(s) && i < |s.events|
    ensures var e, r := s.events[i], RepriceOf(s, None, None).events[i];
            && Bare(r) == Bare(e)
            && r.listCost == ScratchList(s, e)
            && (r.billedCost == ScratchBilled(s, e) <==>
                !(e.source in s.litellm && e.charged.None? && e.billedCost.Some?
                    && e.billedCost != ScratchBilled(s, e)))
  {
    hide BestOf, ListCost;
    var e := s.events[i];
    assert Priced(s.prices, s.litellm, e);
    ChoiceIgnoresCosts(s.prices, e, Cleared(s, e), s.pricedAs);
  }

  /** A reprice touches exactly the events from the first instant through the last. */
  lemma RepriceCoversExactly(s: State, from: Option<int>, to: Option<int>, i: nat)
    requires i < |s.events|
    ensures var e, r := s.events[i], RepriceOf(s, from, to).events[i];
            && (from.Some? && e.at < from.value && e.listCost.Some? ==> r == e)
            && (to.Some? && to.value < e.at && e.listCost.Some? ==> r == e)
            && ((from == None || from.value <= e.at) && (to == None || e.at <= to.value) ==>
                  r.listCost == ScratchList(s, e))
  {
    hide BestOf, ListCost;
    var e := s.events[i];
    ChoiceIgnoresCosts(s.prices, e, Cleared(s, e), s.pricedAs);
  }

  /** So how the costs came to be does not matter: two books with the same rows, in any order,
      and the same requests list the same costs after a reprice. */
  lemma RepriceForgetsHistory(s: State, t: State, i: nat)
    requires Inv(s) && Inv(t) && i < |s.events| && i < |t.events| && Bare(s.events[i]) == Bare(t.events[i])
    requires s.pricedAs == t.pricedAs && forall p :: p in s.prices <==> p in t.prices
    ensures RepriceOf(s, None, None).events[i].listCost == RepriceOf(t, None, None).events[i].listCost
  {
    hide BestOf, ListCost, RepriceOf;
    var e, f := s.events[i], t.events[i];
    RepriceIsFromScratch(s, i);
    RepriceIsFromScratch(t, i);
    ChoiceIgnoresCosts(s.prices, e, f, s.pricedAs);
    TableOrderDoesNotMatter(s.prices, t.prices, f, s.pricedAs);
    assert Bare(e).tokens == Bare(f).tokens;
  }

  lemma OneMore(s: State, step: Step, rest: seq<Step>)
    requires Enabled(s, step) && Runs(Next(s, step), rest)
    ensures Runs(s, [step] + rest) && After(s, [step] + rest) == After(Next(s, step), rest)
  {
  }

  function Plain(id: nat, model: string, rate: real): Price {
    Price(id, None, model, None, 0, Manual, 0, Rates(rate, 0.0, 0.0, 0.0))
  }

  lemma ChoiceBetweenNames(e: Event)
    requires e.model == "m" && e.alias == Some("a") && e.tokens.input == 1000000 && e.at == 0
    ensures BestOf([Plain(1, "a", 1.0)], e, map[]) == Some(Plain(1, "a", 1.0))
    ensures BestOf([Plain(1, "a", 1.0), Plain(2, "m", 2.0)], e, map[]) == Some(Plain(2, "m", 2.0))
  {
  }

  /** An uncharged LiteLLM event stays billed at a price that no longer prices it. */
  lemma AComputedBillOutlivesItsPrice() returns (steps: seq<Step>)
    ensures Runs(EMPTY, steps) && |After(EMPTY, steps).events| == 1
    ensures After(EMPTY, steps).events[0].listCost == Some(2.0) && After(EMPTY, steps).events[0].billedCost == Some(1.0)
  {
    var p, q := Plain(1, "a", 1.0), Plain(2, "m", 2.0);
    var e := Event(9, 1, 5, "p", "m", Some("a"), None, 0, Tokens(1000000, 0, 0, 0), None, None, None, None);
    var s1, s2, s3, s4, s5 := AddingSource(1), AddingPrice(p), AddingEvent(e), AddingPrice(q), Repricing(None, None);
    var a := Next(Next(Next(EMPTY, s1), s2), s3);
    assert a == State([p], [e], {}, {1}, map[]);
    var f := e.(price := Some(1), listCost := Some(1.0), billedCost := Some(1.0));
    var x := e.(billedCost := Some(1.0));
    ChoiceBetweenNames(e);
    ChoiceBetweenNames(x);
    hide BestOf;
    assert Filled(a, e) == f;
    var b := Next(a, Filling);
    assert b.events == [f];
    var c := Next(b, s4);
    assert c.prices == [p, q];
    var d := Next(c, s5);
    assert ClearOf(c, None, None).events == [x];
    assert d.events[0].listCost == Some(2.0) && d.events[0].billedCost == Some(1.0);
    assert Enabled(EMPTY, s1) && Enabled(Next(EMPTY, s1), s2) && Enabled(Next(Next(EMPTY, s1), s2), s3);
    assert Enabled(a, Filling) && Enabled(b, s4) && Enabled(c, s5);
    hide Next, Enabled;
    OneMore(c, s5, []);
    OneMore(b, s4, [s5] + []);
    OneMore(a, Filling, [s4] + ([s5] + []));
    steps := [Filling] + ([s4] + ([s5] + []));
    OneMore(Next(Next(EMPTY, s1), s2), s3, steps);
    OneMore(Next(EMPTY, s1), s2, [s3] + steps);
    OneMore(EMPTY, s1, [s2] + ([s3] + steps));
    steps := [s1] + ([s2] + ([s3] + steps));
  }
}
