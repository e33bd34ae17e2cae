/** Expanding a filter into concrete subscriptions: filtering, sorting and fan-out. */
module Resolver {
  import opened Wire
  import opened Sorting
  import opened Dates
  import opened Subscriptions

  datatype OptionSymbol = OptionSymbol(
    expirationDate: string,
    strikePrice: string,
    optionType: string,
    streamerSymbol: string)

  datatype Window<T> = Window(min: T, max: T)

  datatype FilterSpec = FilterSpec(
    root: string,
    eventTypes: seq<string>,
    kind: string,
    expiry: Option<Window<string>>,
    strike: Option<Window<real>>,
    includeEquity: bool)

  /** Any reader of decimal strings; an unreadable strike is None. */
  type StrikeReader = string -> Option<real>

  /** Letters compared without case; the option markers have no other case variants. */
  predicate EqualFold(s: string, lower: string) {
    Lower(s) == lower
  }

  predicate MatchKind(o: OptionSymbol, kind: string) {
    match kind
    case "" => true
    case "both" => true
    case "call" => EqualFold(o.optionType, "c") || EqualFold(o.optionType, "call")
    case "put" => EqualFold(o.optionType, "p") || EqualFold(o.optionType, "put")
    case _ => false
  }

  predicate InExpiry(o: OptionSymbol, w: Window<string>) {
    && ParseDate(o.expirationDate).Some? && ParseDate(w.min).Some? && ParseDate(w.max).Some?
    && ParseDate(w.min).value <= ParseDate(o.expirationDate).value <= ParseDate(w.max).value
  }

  predicate InStrike(read: StrikeReader, o: OptionSymbol, w: Window<real>) {
    read(o.strikePrice).Some? && w.min <= read(o.strikePrice).value <= w.max
  }

  predicate Keeps(read: StrikeReader, f: FilterSpec, o: OptionSymbol) {
    && MatchKind(o, f.kind)
    && (f.expiry.Some? ==> InExpiry(o, f.expiry.value))
    && (f.strike.Some? ==> InStrike(read, o, f.strike.value))
    && o.streamerSymbol != ""
  }

  function Keeper(read: StrikeReader, f: FilterSpec): OptionSymbol -> bool {
    o => Keeps(read, f, o)
  }

  /** A window that is unreadable or upside down. */
  predicate BadWindows(f: FilterSpec) {
    || (f.expiry.Some? && (ParseDate(f.expiry.value.min).None? || ParseDate(f.expiry.value.max).None?
                           || ParseDate(f.expiry.value.max).value < ParseDate(f.expiry.value.min).value))
    || (f.strike.Some? && f.strike.value.max < f.strike.value.min)
  }

  /** An unreadable strike sorts as 0. */
  function StrikeOf(read: StrikeReader, o: OptionSymbol): real {
    match read(o.strikePrice)
    case Some(x) => x
    case None => 0.0
  }

  /** By expiry string, then strike, then option type. */
  predicate OptionLess(read: StrikeReader, a: OptionSymbol, b: OptionSymbol) {
    if a.expirationDate != b.expirationDate then StrLess(a.expirationDate, b.expirationDate)
    else if StrikeOf(read, a) != StrikeOf(read, b) then StrikeOf(read, a) < StrikeOf(read, b)
    else StrLess(a.optionType, b.optionType)
  }

  function Order(read: StrikeReader): (OptionSymbol, OptionSymbol) -> bool {
    (a, b) => OptionLess(read, a, b)
  }

  lemma OrderIsStrictWeak(read: StrikeReader)
    ensures StrictWeakOrder(Order(read))
  {
    forall a: OptionSymbol ensures !Order(read)(a, a) {
      StrLessTotal(a.optionType, a.optionType);
    }
    forall a: OptionSymbol, b: OptionSymbol, c: OptionSymbol
      ensures Order(read)(a, b) && Order(read)(b, c) ==> Order(read)(a, c)
      ensures Order(read)(a, c) ==> Order(read)(a, b) || Order(read)(b, c)
    {
      OptionLessLaws(read, a, b, c);
    }
  }

  lemma OptionLessLaws(read: StrikeReader, a: OptionSymbol, b: OptionSymbol, c: OptionSymbol)
    ensures OptionLess(read, a, b) && OptionLess(read, b, c) ==> OptionLess(read, a, c)
    ensures OptionLess(read, a, c) ==> OptionLess(read, a, b) || OptionLess(read, b, c)
  {
    StrLaws(a.expirationDate, b.expirationDate, c.expirationDate);
    StrLaws(a.optionType, b.optionType, c.optionType);
  }

  lemma StrLaws(a: string, b: string, c: string)
    ensures StrLess(a, b) && StrLess(b, c) ==> StrLess(a, c)
    ensures StrLess(a, c) ==> StrLess(a, b) || StrLess(b, c)
    ensures a == b || StrLess(a, b) || StrLess(b, a)
    ensures b == c || StrLess(b, c) || StrLess(c, b)
    ensures !(StrLess(a, b) && StrLess(b, a)) && !(StrLess(b, c) && StrLess(c, b)) && !(StrLess(a, c) && StrLess(c, a))
    ensures !StrLess(a, a) && !StrLess(b, b)
  {
    StrLessTransitive(a, b, c);
    StrLessTransitive(c, b, a);
    StrLessTotal(a, b);
    StrLessTotal(b, c);
    StrLessTotal(a, c);
    StrLessTotal(b, b);
  }

  // ---------------------------------------------------------------- what is kept, and in what order, spelled out

  /** The small letter `small`, or its capital. */
  predicate SameLetter(c: char, small: char) {
    c == small || ('A' <= c <= 'Z' && 'a' <= small <= 'z' && c - 'A' == small - 'a')
  }

  /** The text is one of the spellings of `word`, a word of small letters, in any mixture of case. */
  predicate Spells(s: string, word: string) {
    |s| == |word| && forall i :: 0 <= i < |s| ==> SameLetter(s[i], word[i])
  }

  predicate SmallLetters(word: string) {
    forall i :: 0 <= i < |word| ==> 'a' <= word[i] <= 'z'
  }

  lemma EqualFoldSpells(s: string, word: string)
    requires SmallLetters(word)
    ensures EqualFold(s, word) <==> Spells(s, word)
  {
    if EqualFold(s, word) {
      forall i | 0 <= i < |s| ensures SameLetter(s[i], word[i]) {
        LowerLetters(s, i);
      }
    }
    if Spells(s, word) {
      forall i | 0 <= i < |s| ensures Lower(s)[i] == word[i] {
        LowerLetters(s, i);
      }
      assert Lower(s) == word;
    }
  }

  /** The options of a kind: calls read c or call, puts read p or put, whatever their case; "" and "both" want all. */
  predicate OfKind(optionType: string, kind: string) {
    || kind == "" || kind == "both"
    || (kind == "call" && (Spells(optionType, "c") || Spells(optionType, "call")))
    || (kind == "put" && (Spells(optionType, "p") || Spells(optionType, "put")))
  }

  /** A readable expiry, neither before the window's first day nor after its last. */
  predicate ExpiryWithin(expiry: string, w: Window<string>) {
    ParseDate(expiry).Some? && !StrLess(expiry, w.min) && !StrLess(w.max, expiry)
  }

  /** A readable strike, neither below nor above the window. */
  predicate StrikeWithin(read: StrikeReader, strike: string, w: Window<real>) {
    read(strike).Some? && !(read(strike).value < w.min) && !(w.max < read(strike).value)
  }

  /** What the filter asks of an option. */
  predicate Wanted(read: StrikeReader, f: FilterSpec, o: OptionSymbol) {
    && o.streamerSymbol != "" && OfKind(o.optionType, f.kind)
    && (f.expiry.None? || ExpiryWithin(o.expirationDate, f.expiry.value))
    && (f.strike.None? || StrikeWithin(read, o.strikePrice, f.strike.value))
  }

  lemma MatchKindIff(o: OptionSymbol, kind: string)
    ensures MatchKind(o, kind) <==> OfKind(o.optionType, kind)
  {
    EqualFoldSpells(o.optionType, "c");
    EqualFoldSpells(o.optionType, "call");
    EqualFoldSpells(o.optionType, "p");
    EqualFoldSpells(o.optionType, "put");
  }

  lemma InExpiryIff(o: OptionSymbol, w: Window<string>)
    requires ParseDate(w.min).Some? && ParseDate(w.max).Some?
    ensures InExpiry(o, w) <==> ExpiryWithin(o.expirationDate, w)
  {
    if ParseDate(o.expirationDate).Some? {
      DateOrderIsStringOrder(o.expirationDate, w.min);
      DateOrderIsStringOrder(w.max, o.expirationDate);
    }
  }

  lemma KeepsIff(read: StrikeReader, f: FilterSpec, o: OptionSymbol)
    requires !BadWindows(f)
    ensures Keeps(read, f, o) <==> Wanted(read, f, o)
  {
    MatchKindIff(o, f.kind);
    if f.expiry.Some? {
      InExpiryIff(o, f.expiry.value);
    }
  }

  /** What a strike counts for in the order: its value, or 0 when it cannot be read. */
  predicate Counts(read: StrikeReader, strike: string, x: real) {
    read(strike) == Some(x) || (read(strike).None? && x == 0.0)
  }

  /** Not out of order: earlier expiries first, then lower strikes, then smaller option types. */
  ghost predicate InOrder(read: StrikeReader, a: OptionSymbol, b: OptionSymbol) {
    && (a.expirationDate == b.expirationDate || StrLess(a.expirationDate, b.expirationDate))
    && (a.expirationDate == b.expirationDate ==>
        forall x, y :: Counts(read, a.strikePrice, x) && Counts(read, b.strikePrice, y) ==>
          x <= y && (x == y ==> a.optionType == b.optionType || StrLess(a.optionType, b.optionType)))
  }

  lemma NotLessIsInOrder(read: StrikeReader, a: OptionSymbol, b: OptionSymbol)
    requires !OptionLess(read, b, a)
    ensures InOrder(read, a, b)
  {
    StrLessTotal(a.expirationDate, b.expirationDate);
    StrLessTotal(a.optionType, b.optionType);
  }

  /** The result of filtering, without reference to how: what is in it, how often, in which order. */
  ghost predicate Filtered(read: StrikeReader, f: FilterSpec, opts: seq<OptionSymbol>, out: seq<OptionSymbol>) {
    && (forall o :: o in out ==> Wanted(read, f, o))
    && (forall o :: multiset(out)[o] == if Wanted(read, f, o) then multiset(opts)[o] else 0)
    && (forall i, j :: 0 <= i < j < |out| ==> InOrder(read, out[i], out[j]))
  }

  lemma SortedFilterIsFiltered(read: StrikeReader, f: FilterSpec, opts: seq<OptionSymbol>)
    requires !BadWindows(f)
    ensures Filtered(read, f, opts, Sort(Order(read), Filter(Keeper(read, f), opts)))
  {
    var out := Sort(Order(read), Filter(Keeper(read, f), opts));
    SortedFilter(read, f, opts);
    forall o ensures Keeps(read, f, o) <==> Wanted(read, f, o) {
      KeepsIff(read, f, o);
    }
    forall o | o in out ensures Wanted(read, f, o) {
      assert o in multiset(out);
    }
    forall i, j | 0 <= i < j < |out| ensures InOrder(read, out[i], out[j]) {
      assert !Order(read)(out[j], out[i]);
      NotLessIsInOrder(read, out[i], out[j]);
    }
  }

  /** The type "C" counts as a call and not as a put, "P" the other way round. */
  lemma LettersOfKinds()
    ensures OfKind("C", "call") && OfKind("c", "call") && OfKind("Call", "call") && !OfKind("P", "call")
    ensures OfKind("P", "put") && OfKind("p", "put") && OfKind("PUT", "put") && !OfKind("C", "put")
    ensures OfKind("C", "both") && OfKind("P", "both") && OfKind("C", "") && OfKind("P", "")
  {
    assert !SameLetter("P"[0], "c"[0]) && !SameLetter("C"[0], "p"[0]);
  }

  /** A window is refused exactly when a bound is no date or the bounds are the wrong way round. */
  lemma BadWindowsIff(f: FilterSpec)
    ensures BadWindows(f) <==>
            || (f.expiry.Some? && (ParseDate(f.expiry.value.min).None? || ParseDate(f.expiry.value.max).None?
                                   || StrLess(f.expiry.value.max, f.expiry.value.min)))
            || (f.strike.Some? && f.strike.value.max < f.strike.value.min)
  {
    if f.expiry.Some? && ParseDate(f.expiry.value.min).Some? && ParseDate(f.expiry.value.max).Some? {
      DateOrderIsStringOrder(f.expiry.value.max, f.expiry.value.min);
    }
  }

  /**
   The options kept, each as often as it was listed, in (expiry, strike, kind) order; an error exactly for a
   window that is unreadable or upside down.
   */
  method FilterOptions(read: StrikeReader, opts: seq<OptionSymbol>, f: FilterSpec)
    returns (r: Result<seq<OptionSymbol>, string>)
    ensures r.Failure? <==> BadWindows(f)
    ensures r.Success? ==> Sorted(Order(read), r.value)
    ensures r.Success? ==> forall o :: multiset(r.value)[o] == if Keeps(read, f, o) then multiset(opts)[o] else 0
    ensures r.Success? ==> r.value == Sort(Order(read), Filter(Keeper(read, f), opts))
    ensures r.Success? ==> Filtered(read, f, opts, r.value)
  {
    var expMin, expMax := 0, 0;
    if f.expiry.Some? {
      var min, max := ParseDate(f.expiry.value.min), ParseDate(f.expiry.value.max);
      if min.None? {
        return Failure("resolve: bad expiry min");
      }
      if max.None? {
        return Failure("resolve: bad expiry max");
      }
      expMin, expMax := min.value, max.value;
      if expMax < expMin {
        return Failure("resolve: expiry max before min");
      }
    }
    if f.strike.Some? && f.strike.value.max < f.strike.value.min {
      return Failure("resolve: strike max before min");
    }
    var out := KeepMatching(read, opts, f, expMin, expMax);
    SortedFilter(read, f, opts);
    SortedFilterIsFiltered(read, f, opts);
    r := Success(Sort(Order(read), out));
  }

  /** The filter loop; expMin and expMax are the parsed bounds of the expiry window, if there is one. */
  method KeepMatching(read: StrikeReader, opts: seq<OptionSymbol>, f: FilterSpec, expMin: nat, expMax: nat)
    returns (out: seq<OptionSymbol>)
    requires f.expiry.Some? ==> ParseDate(f.expiry.value.min) == Some(expMin)
    requires f.expiry.Some? ==> ParseDate(f.expiry.value.max) == Some(expMax)
    ensures out == Filter(Keeper(read, f), opts)
  {
    out := [];
    for i := 0 to |opts|
      invariant out == Filter(Keeper(read, f), opts[..i])
    {
      var o := opts[i];
      assert opts[..i + 1] == opts[..i] + [o];
      FilterSnoc(Keeper(read, f), opts[..i], o);
      if !MatchKind(o, f.kind) {
        continue;
      }
      if f.expiry.Some? {
        var expiry := ParseDate(o.expirationDate);
        if expiry.None? {
          continue;
        }
        if expiry.value < expMin || expiry.value > expMax {
          continue;
        }
      }
      if f.strike.Some? {
        var strike := read(o.strikePrice);
        if strike.None? {
          continue;
        }
        if strike.value < f.strike.value.min || strike.value > f.strike.value.max {
          continue;
        }
      }
      if o.streamerSymbol == "" {
        continue;
      }
      out := out + [o];
    }
    assert opts[..|opts|] == opts;
  }

  lemma SortedFilter(read: StrikeReader, f: FilterSpec, opts: seq<OptionSymbol>)
    ensures var out := Sort(Order(read), Filter(Keeper(read, f), opts));
      && Sorted(Order(read), out)
      && forall o :: multiset(out)[o] == if Keeps(read, f, o) then multiset(opts)[o] else 0
  {
    OrderIsStrictWeak(read);
    SortSorts(Order(read), Filter(Keeper(read, f), opts));
    forall o ensures multiset(Filter(Keeper(read, f), opts))[o] == if Keeps(read, f, o) then multiset(opts)[o] else 0 {
      FilterCounts(Keeper(read, f), opts, o);
    }
  }

  // ---------------------------------------------------------------- a window is a slice of the chain

  predicate WellDated(opts: seq<OptionSymbol>) {
    forall i :: 0 <= i < |opts| ==> ParseDate(opts[i].expirationDate).Some?
  }

  function DateOf(o: OptionSymbol): int {
    match ParseDate(o.expirationDate)
    case Some(d) => d
    case None => 0
  }

  function Within(w: Window<string>): OptionSymbol -> bool {
    o => InExpiry(o, w)
  }

  lemma SortedByDate(read: StrikeReader, opts: seq<OptionSymbol>, i: nat, j: nat)
    requires Sorted(Order(read), opts) && WellDated(opts) && i <= j < |opts|
    ensures DateOf(opts[i]) <= DateOf(opts[j])
  {
    if i < j {
      assert !Order(read)(opts[j], opts[i]);
      DateOrderIsStringOrder(opts[j].expirationDate, opts[i].expirationDate);
    }
  }

  predicate ReadableWindow(w: Window<string>) {
    ParseDate(w.min).Some? && ParseDate(w.max).Some? && ParseDate(w.min).value <= ParseDate(w.max).value
  }

  lemma WithinMeans(o: OptionSymbol, w: Window<string>)
    requires ParseDate(o.expirationDate).Some? && ReadableWindow(w)
    ensures Within(w)(o) <==> ParseDate(w.min).value <= DateOf(o) <= ParseDate(w.max).value
  {
  }

  lemma SortedSlice(read: StrikeReader, opts: seq<OptionSymbol>, w: Window<string>) returns (lo: nat, hi: nat)
    requires Sorted(Order(read), opts) && WellDated(opts) && ReadableWindow(w)
    ensures lo <= hi <= |opts| && Filter(Within(w), opts) == opts[lo..hi]
  {
    forall i, j | 0 <= i <= j < |opts| ensures DateOf(opts[i]) <= DateOf(opts[j]) {
      SortedByDate(read, opts, i, j);
    }
    forall i | 0 <= i < |opts|
      ensures Within(w)(opts[i]) <==> ParseDate(w.min).value <= DateOf(opts[i]) <= ParseDate(w.max).value
    {
      WithinMeans(opts[i], w);
    }
    lo, hi := BetweenIsASlice(Within(w), DateOf, ParseDate(w.min).value, ParseDate(w.max).value, opts);
  }

  /**
   On a chain of well-formed dates, adding an expiry window to a filter selects a contiguous slice of the sorted
   chain, up to the order of ties.
   */
  lemma WindowIsASlice(read: StrikeReader, opts: seq<OptionSymbol>, f: FilterSpec, w: Window<string>)
    returns (lo: nat, hi: nat)
    requires f.expiry.None? && !BadWindows(f.(expiry := Some(w))) && WellDated(opts)
    ensures var whole := Sort(Order(read), Filter(Keeper(read, f), opts));
      var windowed := Sort(Order(read), Filter(Keeper(read, f.(expiry := Some(w))), opts));
      && lo <= hi <= |whole|
      && multiset(whole[lo..hi]) == multiset(windowed)
      && Sorted(Order(read), whole[lo..hi])
  {
    var kept := Filter(Keeper(read, f), opts);
    var whole := Sort(Order(read), kept);
    var narrow := Keeper(read, f.(expiry := Some(w)));
    OrderIsStrictWeak(read);
    SortSorts(Order(read), kept);
    SortSorts(Order(read), Filter(narrow, opts));
    SortedKeepsDates(read, opts, Keeper(read, f));
    lo, hi := SortedSlice(read, whole, w);
    FilterTwice(Keeper(read, f), Within(w), narrow, opts);
    FilterOfPermutation(Within(w), whole, kept);
    assert forall i :: 0 <= i < hi - lo ==> whole[lo..hi][i] == whole[lo + i];
  }

  lemma FilterOfPermutation(p: OptionSymbol -> bool, xs: seq<OptionSymbol>, ys: seq<OptionSymbol>)
    requires multiset(xs) == multiset(ys)
    ensures multiset(Filter(p, xs)) == multiset(Filter(p, ys))
  {
    forall o ensures multiset(Filter(p, xs))[o] == multiset(Filter(p, ys))[o] {
      FilterCounts(p, xs, o);
      FilterCounts(p, ys, o);
    }
  }

  lemma SortedKeepsDates(read: StrikeReader, opts: seq<OptionSymbol>, p: OptionSymbol -> bool)
    requires WellDated(opts)
    ensures WellDated(Sort(Order(read), Filter(p, opts)))
  {
    var kept := Filter(p, opts);
    var whole := Sort(Order(read), kept);
    OrderIsStrictWeak(read);
    SortSorts(Order(read), kept);
    forall i | 0 <= i < |whole| ensures ParseDate(whole[i].expirationDate).Some? {
      assert whole[i] in multiset(whole);
      FilterCounts(p, opts, whole[i]);
      assert whole[i] in multiset(opts);
    }
  }

  // ---------------------------------------------------------------- fan-out

  /** One symbol under every event type. */
  function Row(events: seq<string>, symbol: string): seq<Key> {
    seq(|events|, j requires 0 <= j < |events| => Key(events[j], symbol))
  }

  function Fan(events: seq<string>, opts: seq<OptionSymbol>): seq<Key> {
    if opts == [] then [] else Fan(events, opts[..|opts| - 1]) + Row(events, opts[|opts| - 1].streamerSymbol)
  }

  lemma {:induction false} FanLength(events: seq<string>, opts: seq<OptionSymbol>)
    ensures |Fan(events, opts)| == |opts| * |events|
  {
    if opts == [] {
    } else {
      FanLength(events, opts[..|opts| - 1]);
      OneMoreRow(|opts| - 1, |events|);
    }
  }

  lemma OneMoreRow(n: nat, k: nat)
    ensures (n + 1) * k == n * k + k
  {
  }

  /** Where event j of option i goes when there are k events. */
  function Place(i: nat, j: nat, k: nat): nat {
    i * k + j
  }

  lemma {:induction false} FanAt(events: seq<string>, opts: seq<OptionSymbol>, i: nat, j: nat, at: nat)
    requires i < |opts| && j < |events| && at == Place(i, j, |events|)
    ensures at < |Fan(events, opts)| && Fan(events, opts)[at] == Key(events[j], opts[i].streamerSymbol)
    decreases |opts|
  {
    var n := |opts| - 1;
    FanLength(events, opts[..n]);
    if i < n {
      FanAt(events, opts[..n], i, j, at);
    }
  }

  /**
   The whole output: after an equity block of b subscriptions, element b + i*k + j is event j of option i.
   */
  lemma BlockStructure(events: seq<string>, head: seq<Key>, opts: seq<OptionSymbol>)
    ensures var out, b, k := head + Fan(events, opts), |head|, |events|;
      && |out| == b + |opts| * k
      && forall i, j :: 0 <= i < |opts| && 0 <= j < k ==>
        b + Place(i, j, k) < |out| && out[b + Place(i, j, k)] == Key(events[j], opts[i].streamerSymbol)
  {
    FanLength(events, opts);
    forall i, j | 0 <= i < |opts| && 0 <= j < |events| {
      FanAt(events, opts, i, j, Place(i, j, |events|));
    }
  }

  /** The characters with the Unicode White_Space property. */
  predicate IsSpace(c: char) {
    || c == ' ' || '\U{9}' <= c <= '\U{d}' || c == '\U{85}' || c == '\U{a0}' || c == '\U{1680}'
    || '\U{2000}' <= c <= '\U{200a}' || c == '\U{2028}' || c == '\U{2029}' || c == '\U{202f}'
    || c == '\U{205f}' || c == '\U{3000}'
  }

  function TrimLeft(s: string): string {
    if s != "" && IsSpace(s[0]) then TrimLeft(s[1..]) else s
  }

  function TrimRight(s: string): string {
    if s != "" && IsSpace(s[|s| - 1]) then TrimRight(s[..|s| - 1]) else s
  }

  /** Trimmed, then upper-cased character by character by whatever table `upper` is. */
  function NormalRoot(upper: char -> char, s: string): string {
    var t := TrimRight(TrimLeft(s));
    seq(|t|, i requires 0 <= i < |t| => upper(t[i]))
  }

  /** A root with nothing but space is the only one that normalises to nothing. */
  lemma {:induction false} BlankRootIff(upper: char -> char, s: string)
    ensures NormalRoot(upper, s) == "" <==> forall i :: 0 <= i < |s| ==> IsSpace(s[i])
  {
    TrimLeftBlankIff(s);
    var t := TrimLeft(s);
    if t != "" {
      TrimRightKeepsFirst(t);
    }
  }

  lemma {:induction false} TrimLeftBlankIff(s: string)
    ensures TrimLeft(s) == "" <==> forall i :: 0 <= i < |s| ==> IsSpace(s[i])
    ensures TrimLeft(s) != "" ==> !IsSpace(TrimLeft(s)[0])
  {
    if s != "" && IsSpace(s[0]) {
      TrimLeftBlankIff(s[1..]);
      assert forall i :: 0 <= i < |s[1..]| ==> s[1..][i] == s[i + 1];
      assert forall i :: 1 <= i < |s| ==> s[i] == s[1..][i - 1];
    }
  }

  lemma {:induction false} TrimRightKeepsFirst(s: string)
    requires s != "" && !IsSpace(s[0])
    ensures TrimRight(s) != ""
  {
    if IsSpace(s[|s| - 1]) {
      TrimRightKeepsFirst(s[..|s| - 1]);
    }
  }

  const ALLOWED := {"Quote", "Greeks", "TheoPrice", "Underlying"}

  method ValidateEventTypes(events: seq<string>) returns (r: Outcome<string>)
    ensures r.Pass? <==> Unknown(events) == {}
    ensures r.Pass? <==> forall i :: 0 <= i < |events| ==> events[i] in {"Quote", "Greeks", "TheoPrice", "Underlying"}
  {
    for i := 0 to |events|
      invariant forall j :: 0 <= j < i ==> events[j] in ALLOWED
    {
      if events[i] !in ALLOWED {
        assert events[i] in Unknown(events);
        return Fail("resolve: unknown event type");
      }
    }
    r := Pass;
  }

  function Unknown(events: seq<string>): set<string> {
    set e | e in events && e !in ALLOWED
  }

  /** The symbology lookups, each of which may fail, and the table of upper-case letters. */
  datatype Source = Source(
    upper: char -> char,
    equity: string -> Result<string, string>,
    options: string -> Result<seq<OptionSymbol>, string>)

  function EventsWanted(f: FilterSpec): seq<string> {
    if f.eventTypes == [] then ["Quote"] else f.eventTypes
  }

  predicate Unfiltered(f: FilterSpec) {
    f.kind == "" && f.strike.None? && f.expiry.None?
  }

  predicate WantsEquity(f: FilterSpec) {
    f.includeEquity || Unfiltered(f)
  }

  predicate Refused(source: Source, f: FilterSpec) {
    || NormalRoot(source.upper, f.root) == ""
    || Unknown(EventsWanted(f)) != {}
    || f.kind !in {"", "call", "put", "both"}
    || (WantsEquity(f) && source.equity(NormalRoot(source.upper, f.root)).Failure?)
    || (!Unfiltered(f) && (source.options(NormalRoot(source.upper, f.root)).Failure? || BadWindows(f)))
  }

  /** The equity block: one subscription per event type, or none. */
  function EquityBlock(source: Source, f: FilterSpec): seq<Key>
    requires WantsEquity(f) ==> source.equity(NormalRoot(source.upper, f.root)).Success?
  {
    if WantsEquity(f) then Row(EventsWanted(f), source.equity(NormalRoot(source.upper, f.root)).value) else []
  }

  /** What the filter chooses from the chain, in order. */
  function Chosen(source: Source, read: StrikeReader, f: FilterSpec): seq<OptionSymbol>
    requires !Unfiltered(f) ==> source.options(NormalRoot(source.upper, f.root)).Success?
  {
    if Unfiltered(f) then []
    else Sort(Order(read), Filter(Keeper(read, f), source.options(NormalRoot(source.upper, f.root)).value))
  }

  // ---------------------------------------------------------------- the result, spelled out

  /** The event types asked for, Quote if none are named. */
  predicate AskedFor(events: seq<string>, f: FilterSpec) {
    (f.eventTypes != [] && events == f.eventTypes) || (f.eventTypes == [] && events == ["Quote"])
  }

  /** No option filter at all: equity only. */
  predicate EquityOnly(f: FilterSpec) {
    f.kind == "" && f.strike == None && f.expiry == None
  }

  /** The root without the space around it, letter by letter in upper case. */
  ghost predicate RootOf(upper: char -> char, s: string, root: string) {
    exists lo: nat, hi: nat ::
      TrimmedTo(s, lo, hi) && |root| == hi - lo && forall i :: 0 <= i < hi - lo ==> root[i] == upper(s[lo + i])
  }

  /** From lo to hi lies all that is not space around it. */
  predicate TrimmedTo(s: string, lo: nat, hi: nat) {
    && lo <= hi <= |s|
    && (forall i :: 0 <= i < lo ==> IsSpace(s[i])) && (forall i :: hi <= i < |s| ==> IsSpace(s[i]))
    && (lo < hi ==> !IsSpace(s[lo]) && !IsSpace(s[hi - 1]))
  }

  lemma {:induction false} TrimLeftMeans(s: string) returns (lo: nat)
    ensures lo <= |s| && TrimLeft(s) == s[lo..] && (forall i :: 0 <= i < lo ==> IsSpace(s[i]))
    ensures lo < |s| ==> !IsSpace(s[lo])
  {
    if s != "" && IsSpace(s[0]) {
      lo := TrimLeftMeans(s[1..]);
      assert forall i :: 1 <= i < lo + 1 ==> s[i] == s[1..][i - 1];
      assert s[1..][lo..] == s[lo + 1..];
      lo := lo + 1;
    } else {
      lo := 0;
    }
  }

  lemma {:induction false} TrimRightMeans(s: string) returns (hi: nat)
    ensures hi <= |s| && TrimRight(s) == s[..hi] && (forall i :: hi <= i < |s| ==> IsSpace(s[i]))
    ensures 0 < hi ==> !IsSpace(s[hi - 1])
  {
    if s != "" && IsSpace(s[|s| - 1]) {
      hi := TrimRightMeans(s[..|s| - 1]);
      assert s[..|s| - 1][..hi] == s[..hi];
    } else {
      hi := |s|;
    }
  }

  lemma NormalRootMeans(upper: char -> char, s: string)
    ensures RootOf(upper, s, NormalRoot(upper, s))
  {
    var lo := TrimLeftMeans(s);
    var t := s[lo..];
    var n := TrimRightMeans(t);
    var hi := lo + n;
    assert forall i :: lo <= i < |s| ==> s[i] == t[i - lo];
    assert TrimmedTo(s, lo, hi);
    assert TrimRight(TrimLeft(s)) == t[..n];
    assert forall i :: 0 <= i < hi - lo ==> NormalRoot(upper, s)[i] == upper(s[lo + i]);
  }

  /**
   A result, for the root that the caller's text comes to: with equity wanted, its symbol under every event type
   first; then, unless only equity is asked for, every option of the filtered chain under every event type.
   */
  ghost predicate Resolves(source: Source, read: StrikeReader, f: FilterSpec, root: string, events: seq<string>,
                           chosen: seq<OptionSymbol>, out: seq<Key>)
  {
    var equity := f.includeEquity || EquityOnly(f);
    var b := if equity then |events| else 0;
    && root != "" && (equity ==> source.equity(root).Success?)
    && |out| == b + |chosen| * |events|
    && (forall j :: 0 <= j < b ==> out[j] == Key(events[j], source.equity(root).value))
    && (forall i, j :: 0 <= i < |chosen| && 0 <= j < |events| ==>
        b + Place(i, j, |events|) < |out| && out[b + Place(i, j, |events|)] == Key(events[j], chosen[i].streamerSymbol))
    && (if EquityOnly(f) then chosen == []
        else source.options(root).Success? && Filtered(read, f, source.options(root).value, chosen))
  }

  lemma ResolvesMeans(source: Source, read: StrikeReader, f: FilterSpec)
    requires !Refused(source, f)
    ensures var root, events := NormalRoot(source.upper, f.root), EventsWanted(f);
      && RootOf(source.upper, f.root, root) && AskedFor(events, f)
      && Resolves(source, read, f, root, events, Chosen(source, read, f),
                  EquityBlock(source, f) + Fan(events, Chosen(source, read, f)))
  {
    NormalRootMeans(source.upper, f.root);
    BlockStructure(EventsWanted(f), EquityBlock(source, f), Chosen(source, read, f));
    if !EquityOnly(f) {
      SortedFilterIsFiltered(read, f, source.options(NormalRoot(source.upper, f.root)).value);
    }
  }

  /**
   When it is refused: a blank root, an unknown event type or kind, a lookup that is needed and fails, a bad window.
   */
  lemma RefusedIff(source: Source, f: FilterSpec)
    ensures var root := NormalRoot(source.upper, f.root);
      Refused(source, f) <==>
      || (forall i :: 0 <= i < |f.root| ==> IsSpace(f.root[i]))
      || (exists i :: 0 <= i < |f.eventTypes| && f.eventTypes[i] !in {"Quote", "Greeks", "TheoPrice", "Underlying"})
      || (f.kind != "" && f.kind != "call" && f.kind != "put" && f.kind != "both")
      || ((f.includeEquity || EquityOnly(f)) && source.equity(root).Failure?)
      || (!EquityOnly(f) && (source.options(root).Failure? || BadWindows(f)))
  {
    BlankRootIff(source.upper, f.root);
    if Unknown(EventsWanted(f)) != {} {
      var e :| e in Unknown(EventsWanted(f));
      assert f.eventTypes != [];
    }
    if i :| 0 <= i < |f.eventTypes| && f.eventTypes[i] !in {"Quote", "Greeks", "TheoPrice", "Underlying"} {
      assert f.eventTypes[i] in Unknown(EventsWanted(f));
    }
  }

  /** The checks, the equity block, then the fan-out of the chosen options. */
  method Resolve(source: Source, read: StrikeReader, f: FilterSpec) returns (r: Result<seq<Key>, string>)
    ensures r.Failure? <==> Refused(source, f)
    ensures r.Success? ==> r.value == EquityBlock(source, f) + Fan(EventsWanted(f), Chosen(source, read, f))
    ensures r.Success? ==> exists root, events, chosen ::
      && RootOf(source.upper, f.root, root) && AskedFor(events, f)
      && Resolves(source, read, f, root, events, chosen, r.value)
  {
    if !Refused(source, f) {
      ResolvesMeans(source, read, f);
    }
    var root := NormalRoot(source.upper, f.root);
    if root == "" {
      return Failure("resolve: root is required");
    }
    var events := if |f.eventTypes| == 0 then ["Quote"] else f.eventTypes;
    var valid := ValidateEventTypes(events);
    if valid.Fail? {
      return Failure(valid.error);
    }
    if f.kind !in {"", "call", "put", "both"} {
      return Failure("resolve: invalid kind");
    }
    var out: seq<Key> := [];
    if f.includeEquity || (f.kind == "" && f.strike.None? && f.expiry.None?) {
      var streamer := source.equity(root);
      if streamer.Failure? {
        return Failure("resolve: equity symbol: " + streamer.error);
      }
      out := AppendRow(out, events, streamer.value);
      assert [] + Row(events, streamer.value) == Row(events, streamer.value);
    }
    if f.kind == "" && f.strike.None? && f.expiry.None? {
      assert out + [] == out;
      return Success(out);
    }
    var opts := source.options(root);
    if opts.Failure? {
      return Failure("resolve: option chain: " + opts.error);
    }
    var filtered := FilterOptions(read, opts.value, f);
    if filtered.Failure? {
      return Failure(filtered.error);
    }
    out := AppendFan(out, events, filtered.value);
    r := Success(out);
  }

  method AppendFan(out: seq<Key>, events: seq<string>, opts: seq<OptionSymbol>) returns (longer: seq<Key>)
    ensures longer == out + Fan(events, opts)
  {
    longer := out;
    assert out + [] == out;
    for i := 0 to |opts|
      invariant longer == out + Fan(events, opts[..i])
    {
      assert opts[..i + 1][..i] == opts[..i];
      longer := AppendRow(longer, events, opts[i].streamerSymbol);
    }
    assert opts[..|opts|] == opts;
  }

  method AppendRow(out: seq<Key>, events: seq<string>, symbol: string) returns (longer: seq<Key>)
    ensures longer == out + Row(events, symbol)
  {
    longer := out;
    for j := 0 to |events|
      invariant longer == out + Row(events[..j], symbol)
    {
      assert Row(events[..j + 1], symbol) == Row(events[..j], symbol) + [Key(events[j], symbol)];
      longer := longer + [Key(events[j], symbol)];
    }
    assert events[..|events|] == events;
  }

  /**
   Resolve and subscribe in one batch: all of it registered, with what was registered before left as it was, or
   nothing, and then nothing written either unless the connection died under the frame.
   */
  method SubscribeResolved(source: Source, read: StrikeReader, f: FilterSpec, m: SubscriptionManager)
    returns (r: Result<seq<Key>, string>)
    modifies m`state, m.fc`wire, m.fc`link
    ensures r.Success? ==> m.state == WithUnseen(old(m.state), Keys(r.value)) && !Refused(source, f)
    ensures r.Failure? ==> m.state == old(m.state)
    ensures r.Failure? && old(m.fc.link) != Failing ==> m.fc.wire == old(m.fc.wire)
    ensures old(m.InStep()) ==> m.InStep()
  {
    r := Resolve(source, read, f);
    if r.Success? {
      var added := m.BulkAdd(r.value);
      if added.Fail? {
        r := Failure(added.error);
      }
    }
  }
}
