/** The ingress path: NaN sanitising of the raw bytes, feed parsing, publication and counting. */
module Ingress {
  import opened Wire
  import opened Subscriptions
  import opened Picking

  const NAN := "\"NaN\""

  /** Left-to-right, non-overlapping replacement of `"NaN"` by `0.0`. */
  function Sanitize(b: string): string
    decreases |b|
  {
    if b == "" then ""
    else if NAN <= b then "0.0" + Sanitize(b[5..])
    else [b[0]] + Sanitize(b[1..])
  }

  /** The quoted NaN occurs at position i. */
  predicate OccursAt(b: string, i: nat) {
    i + 5 <= |b| && b[i..i + 5] == NAN
  }

  /** No suffix starts with the quoted NaN. */
  predicate Clean(b: string) {
    b == "" || (!(NAN <= b) && Clean(b[1..]))
  }

  lemma {:induction false} CleanMeansAbsent(b: string, i: nat)
    ensures Clean(b) ==> !OccursAt(b, i)
  {
    if b == "" || i == 0 {
    } else {
      CleanMeansAbsent(b[1..], i - 1);
      if i + 5 <= |b| {
        assert b[i..i + 5] == b[1..][i - 1..i + 4];
      }
    }
  }

  /** Output that starts with p was copied from input that does: replacements start with 0. */
  lemma {:induction false} CopiedPrefix(b: string, p: string)
    requires '0' !in p
    ensures p <= Sanitize(b) ==> p <= b
    decreases |p|
  {
    if p == "" || b == "" {
    } else {
      if NAN <= b {
        assert Sanitize(b)[0] == '0' && p[0] != '0';
      } else {
        assert forall c :: c in p[1..] ==> c in p;
        assert Sanitize(b)[1..] == Sanitize(b[1..]);
        CopiedPrefix(b[1..], p[1..]);
        assert p == [p[0]] + p[1..] && b == [b[0]] + b[1..];
        assert p <= Sanitize(b) ==> p[1..] <= Sanitize(b)[1..];
      }
    }
  }

  lemma PrefixTail(p: string, s: string)
    requires p != "" && s != ""
    ensures p <= s ==> p[0] == s[0] && p[1..] <= s[1..]
  {
  }

  lemma {:induction false} SanitizeCleans(b: string)
    ensures Clean(Sanitize(b))
    decreases |b|
  {
    if NAN <= b {
      var rest := Sanitize(b[5..]);
      SanitizeCleans(b[5..]);
      assert ("0.0" + rest)[1..] == ".0" + rest && (".0" + rest)[1..] == "0" + rest && ("0" + rest)[1..] == rest;
      assert NAN[0] == '\"';
    } else if b != "" {
      SanitizeCleans(b[1..]);
      CopiedPrefix(b[1..], NAN[1..]);
      assert NAN == [NAN[0]] + NAN[1..] && b == [b[0]] + b[1..];
      PrefixTail(NAN, [b[0]] + Sanitize(b[1..]));
      assert ([b[0]] + Sanitize(b[1..]))[1..] == Sanitize(b[1..]);
    }
  }

  lemma {:induction false} CleanIsFixed(b: string)
    requires Clean(b)
    ensures Sanitize(b) == b
  {
    if b == "" {
    } else {
      CleanIsFixed(b[1..]);
    }
  }

  /** For arbitrary bytes: no quoted NaN is left anywhere, and sanitising again changes nothing. */
  lemma SanitizeIsClean(b: string, i: nat)
    ensures !OccursAt(Sanitize(b), i)
    ensures Sanitize(Sanitize(b)) == Sanitize(b)
  {
    SanitizeCleans(b);
    CleanMeansAbsent(Sanitize(b), i);
    CleanIsFixed(Sanitize(b));
  }

  // ---------------------------------------------------------------- against the JSON tokens

  /** A character of a JSON string: itself, or a backslash and the character it escapes. */
  datatype StrChar = Plain(c: char) | Escaped(c: char)

  /** Raw covers punctuation, whitespace, numbers and the literal names. */
  datatype Token = Raw(text: string) | Quoted(chars: seq<StrChar>)

  const NAN_CHARS := [Plain('N'), Plain('a'), Plain('N')]

  predicate WellFormed(t: Token) {
    match t
    case Raw(text) => '\"' !in text && 'N' !in text
    case Quoted(chars) => forall i :: 0 <= i < |chars| && chars[i].Plain? ==> chars[i].c != '\"' && chars[i].c != '\\'
  }

  function PrintChar(c: StrChar): string {
    match c
    case Plain(c) => [c]
    case Escaped(c) => ['\\', c]
  }

  function PrintChars(cs: seq<StrChar>): string {
    if cs == [] then "" else PrintChar(cs[0]) + PrintChars(cs[1..])
  }

  function PrintToken(t: Token): string {
    match t
    case Raw(text) => text
    case Quoted(chars) => "\"" + PrintChars(chars) + "\""
  }

  function Print(ts: seq<Token>): string {
    if ts == [] then "" else PrintToken(ts[0]) + Print(ts[1..])
  }

  /** The intended rewrite: the string NaN becomes the number 0.0, every other token stays. */
  function Intended(t: Token): Token {
    if t == Quoted(NAN_CHARS) then Raw("0.0") else t
  }

  function IntendedAll(ts: seq<Token>): seq<Token> {
    seq(|ts|, i requires 0 <= i < |ts| => Intended(ts[i]))
  }

  /** A string that ends with an escaped quote and then NaN: its tail reads as a quoted NaN. */
  predicate Deceptive(cs: seq<StrChar>) {
    |cs| >= 4 && cs[|cs| - 4..] == [Escaped('\"')] + NAN_CHARS
  }

  predicate DeceptiveToken(t: Token) {
    t.Quoted? && Deceptive(t.chars)
  }

  /** What the byte rewrite makes of a string's characters and closing quote. */
  function StringImage(cs: seq<StrChar>): string {
    if Deceptive(cs) then PrintChars(cs[..|cs| - 4]) + "\\0.0" else PrintChars(cs) + "\""
  }

  /** What the byte rewrite really makes of one token. */
  function Image(t: Token): string {
    match t
    case Raw(text) => text
    case Quoted(chars) => if chars == NAN_CHARS then "0.0" else "\"" + StringImage(chars)
  }

  function ImageAll(ts: seq<Token>): string {
    if ts == [] then "" else Image(ts[0]) + ImageAll(ts[1..])
  }

  /** A character that is not a quote is copied. */
  lemma CopiesPlain(c: char, rest: string)
    requires c != '\"'
    ensures Sanitize([c] + rest) == [c] + Sanitize(rest)
  {
    assert ([c] + rest)[1..] == rest;
    PrefixTail(NAN, [c] + rest);
  }

  /** A quote not followed by NaN and a quote is copied. */
  lemma CopiesQuote(rest: string)
    requires !(NAN[1..] <= rest)
    ensures Sanitize("\"" + rest) == "\"" + Sanitize(rest)
  {
    assert ("\"" + rest)[1..] == rest;
    PrefixTail(NAN, "\"" + rest);
  }

  /** A quoted NaN is replaced. */
  lemma ReplacesNaN(rest: string)
    ensures Sanitize(NAN + rest) == "0.0" + Sanitize(rest)
  {
    assert (NAN + rest)[5..] == rest;
  }

  /** The rest of a string's bytes and what follows it. */
  function Tail(cs: seq<StrChar>, rest: string): string {
    PrintChars(cs) + "\"" + rest
  }

  lemma TailCons(cs: seq<StrChar>, rest: string)
    requires cs != []
    ensures Tail(cs, rest) == PrintChar(cs[0]) + Tail(cs[1..], rest)
  {
  }

  lemma NextChar(cs: seq<StrChar>, rest: string, c: char, p: string)
    requires WellFormed(Quoted(cs)) && c != '\"' && c != '\\'
    ensures [c] + p <= Tail(cs, rest) <==> cs != [] && cs[0] == Plain(c) && p <= Tail(cs[1..], rest)
  {
    PrefixTail([c] + p, Tail(cs, rest));
    assert ([c] + p)[0] == c && ([c] + p)[1..] == p;
    if cs == [] {
      assert Tail(cs, rest)[0] == '\"';
    } else {
      TailCons(cs, rest);
      if cs[0] == Plain(c) {
        assert Tail(cs, rest)[1..] == Tail(cs[1..], rest);
        assert p <= Tail(cs[1..], rest) ==> [c] + p <= [c] + Tail(cs[1..], rest);
      } else {
        assert Tail(cs, rest)[0] == PrintChar(cs[0])[0] != c;
      }
    }
  }

  lemma ClosingQuote(cs: seq<StrChar>, rest: string)
    requires WellFormed(Quoted(cs))
    ensures "\"" <= Tail(cs, rest) <==> cs == []
  {
    if cs != [] {
      assert Tail(cs, rest)[0] != '\"';
    }
  }

  /** Within a string, NaN and a closing quote follow exactly when the characters left are N, a, N. */
  lemma OnlyNaNCloses(cs: seq<StrChar>, rest: string)
    requires WellFormed(Quoted(cs))
    ensures NAN[1..] <= Tail(cs, rest) <==> cs == NAN_CHARS
  {
    NextChar(cs, rest, 'N', "aN\"");
    assert NAN[1..] == ['N'] + "aN\"" && "aN\"" == ['a'] + "N\"" && "N\"" == ['N'] + "\"";
    if cs != [] && cs[0] == Plain('N') {
      NextChar(cs[1..], rest, 'a', "N\"");
      if cs[1..] != [] && cs[1] == Plain('a') {
        NextChar(cs[1..][1..], rest, 'N', "\"");
        assert cs[1..][1..] == cs[2..];
        if cs[2..] != [] && cs[2] == Plain('N') {
          assert cs[2..][1..] == cs[3..];
          ClosingQuote(cs[3..], rest);
          assert cs == NAN_CHARS + cs[3..];
        }
      }
    }
  }

  lemma PrintNaN(rest: string)
    ensures PrintChars(NAN_CHARS) == "NaN" && Tail(NAN_CHARS, rest) == NAN[1..] + rest
  {
    assert NAN_CHARS[1..] == [Plain('a'), Plain('N')] && NAN_CHARS[1..][1..] == [Plain('N')] &&
      NAN_CHARS[1..][1..][1..] == [];
  }

  lemma StringImageCons(cs: seq<StrChar>)
    requires cs != [] && cs != [Escaped('\"')] + NAN_CHARS
    ensures StringImage(cs) == PrintChar(cs[0]) + StringImage(cs[1..])
  {
    if |cs| > 4 {
      assert cs[1..][|cs| - 5..] == cs[|cs| - 4..];
      assert cs[1..][..|cs| - 5] == cs[..|cs| - 4][1..];
    } else if |cs| == 4 {
      assert cs[|cs| - 4..] == cs;
    }
  }

  lemma {:induction false} SanitizeString(cs: seq<StrChar>, rest: string)
    requires WellFormed(Quoted(cs)) && (rest == "" || rest[0] != 'N')
    ensures Sanitize(Tail(cs, rest)) == StringImage(cs) + Sanitize(rest)
    decreases |cs|
  {
    if cs == [] {
      SanitizeClosingQuote(rest);
    } else {
      SanitizeString(cs[1..], rest);
      if cs == [Escaped('\"')] + NAN_CHARS {
        SanitizeDeceptive(cs, rest);
      } else {
        StringImageCons(cs);
        SanitizeChar(cs, rest);
        Associate(PrintChar(cs[0]), StringImage(cs[1..]), Sanitize(rest));
      }
    }
  }

  lemma Associate<T>(a: seq<T>, b: seq<T>, c: seq<T>)
    ensures a + (b + c) == (a + b) + c
  {
  }

  lemma SanitizeClosingQuote(rest: string)
    requires rest == "" || rest[0] != 'N'
    ensures Sanitize(Tail([], rest)) == StringImage([]) + Sanitize(rest)
  {
    assert Tail([], rest) == "\"" + rest && StringImage([]) == "\"";
    CopiesQuote(rest);
  }

  lemma SanitizeDeceptive(cs: seq<StrChar>, rest: string)
    requires cs == [Escaped('\"')] + NAN_CHARS
    ensures Sanitize(Tail(cs, rest)) == StringImage(cs) + Sanitize(rest)
  {
    TailCons(cs, rest);
    assert cs[1..] == NAN_CHARS && cs[|cs| - 4..] == cs && cs[..|cs| - 4] == [];
    PrintNaN(rest);
    assert Tail(cs, rest) == ['\\'] + (NAN + rest);
    CopiesPlain('\\', NAN + rest);
    ReplacesNaN(rest);
    assert StringImage(cs) == ['\\'] + "0.0";
  }

  /** An escape pair is copied, unless it is an escaped quote that NaN and a quote follow. */
  lemma CopiesEscape(c: char, rest: string)
    requires c != '\"' || !(NAN[1..] <= rest)
    ensures Sanitize(['\\', c] + rest) == ['\\', c] + Sanitize(rest)
  {
    assert ['\\', c] + rest == ['\\'] + ([c] + rest);
    CopiesPlain('\\', [c] + rest);
    if c == '\"' {
      CopiesQuote(rest);
    } else {
      CopiesPlain(c, rest);
    }
  }

  lemma SanitizeChar(cs: seq<StrChar>, rest: string)
    requires WellFormed(Quoted(cs)) && cs != [] && cs != [Escaped('\"')] + NAN_CHARS
    ensures Sanitize(Tail(cs, rest)) == PrintChar(cs[0]) + Sanitize(Tail(cs[1..], rest))
  {
    TailCons(cs, rest);
    match cs[0]
    case Plain(c) => CopiesPlain(c, Tail(cs[1..], rest));
    case Escaped(c) =>
      assert cs == [cs[0]] + cs[1..];
      OnlyNaNCloses(cs[1..], rest);
      CopiesEscape(c, Tail(cs[1..], rest));
  }

  lemma {:induction false} SanitizeRaw(text: string, rest: string)
    requires '\"' !in text
    ensures Sanitize(text + rest) == text + Sanitize(rest)
  {
    if text == "" {
      assert text + rest == rest;
    } else {
      assert text + rest == [text[0]] + (text[1..] + rest);
      CopiesPlain(text[0], text[1..] + rest);
      SanitizeRaw(text[1..], rest);
    }
  }

  lemma SanitizeQuoted(cs: seq<StrChar>, rest: string)
    requires WellFormed(Quoted(cs)) && (rest == "" || rest[0] != 'N')
    ensures Sanitize("\"" + Tail(cs, rest)) == Image(Quoted(cs)) + Sanitize(rest)
  {
    if cs == NAN_CHARS {
      PrintNaN(rest);
      assert "\"" + Tail(cs, rest) == NAN + rest;
      ReplacesNaN(rest);
    } else {
      OnlyNaNCloses(cs, rest);
      CopiesQuote(Tail(cs, rest));
      SanitizeString(cs, rest);
      Associate("\"", StringImage(cs), Sanitize(rest));
    }
  }

  lemma SanitizeToken(t: Token, rest: string)
    requires WellFormed(t) && (rest == "" || rest[0] != 'N')
    ensures Sanitize(PrintToken(t) + rest) == Image(t) + Sanitize(rest)
  {
    match t
    case Raw(text) => SanitizeRaw(text, rest);
    case Quoted(cs) =>
      assert PrintToken(t) + rest == "\"" + Tail(cs, rest);
      SanitizeQuoted(cs, rest);
  }

  lemma {:induction false} SanitizeTokens(ts: seq<Token>)
    requires forall i :: 0 <= i < |ts| ==> WellFormed(ts[i])
    ensures Sanitize(Print(ts)) == ImageAll(ts)
    ensures Print(ts) == "" || Print(ts)[0] != 'N'
  {
    if ts == [] {
    } else {
      SanitizeTokens(ts[1..]);
      SanitizeToken(ts[0], Print(ts[1..]));
    }
  }

  lemma {:induction false} PrintLength(cs: seq<StrChar>, i: nat)
    requires i <= |cs|
    ensures PrintChars(cs) == PrintChars(cs[..i]) + PrintChars(cs[i..])
    decreases |cs|
  {
    if i == 0 {
      assert cs[..0] == [] && cs[0..] == cs;
    } else {
      PrintLength(cs[1..], i - 1);
      assert cs[1..][..i - 1] == cs[..i][1..] && cs[1..][i - 1..] == cs[i..];
    }
  }

  lemma ImageOf(t: Token)
    ensures !DeceptiveToken(t) ==> Image(t) == PrintToken(Intended(t))
    ensures DeceptiveToken(t) ==> |Image(t)| == |PrintToken(Intended(t))| - 2
  {
    if DeceptiveToken(t) {
      var cs := t.chars;
      PrintLength(cs, |cs| - 4);
      PrintNaN("");
      assert ([Escaped('\"')] + NAN_CHARS)[1..] == NAN_CHARS;
    }
  }

  lemma IntendedCons(ts: seq<Token>)
    requires ts != []
    ensures Print(IntendedAll(ts)) == PrintToken(Intended(ts[0])) + Print(IntendedAll(ts[1..]))
  {
    assert IntendedAll(ts)[1..] == IntendedAll(ts[1..]);
  }

  predicate AnyDeceptive(ts: seq<Token>) {
    ts != [] && (DeceptiveToken(ts[0]) || AnyDeceptive(ts[1..]))
  }

  lemma {:induction false} AnyDeceptiveMeans(ts: seq<Token>)
    ensures AnyDeceptive(ts) <==> exists i :: 0 <= i < |ts| && DeceptiveToken(ts[i])
  {
    if ts == [] {
    } else {
      AnyDeceptiveMeans(ts[1..]);
      if i :| 0 <= i < |ts| && DeceptiveToken(ts[i]) {
        assert i > 0 ==> DeceptiveToken(ts[1..][i - 1]);
      }
    }
  }

  lemma {:induction false} ImagesOf(ts: seq<Token>)
    ensures !AnyDeceptive(ts) ==> ImageAll(ts) == Print(IntendedAll(ts))
    ensures AnyDeceptive(ts) ==> |ImageAll(ts)| < |Print(IntendedAll(ts))|
    ensures |ImageAll(ts)| <= |Print(IntendedAll(ts))|
  {
    if ts == [] {
    } else {
      ImageOf(ts[0]);
      ImagesOf(ts[1..]);
      IntendedCons(ts);
    }
  }

  /**
   The byte rewrite against the token rewrite, for every JSON token sequence, escapes included: they agree
   exactly when no string ends with an escaped quote followed by NaN.
   */
  lemma SanitizeAgreesIff(ts: seq<Token>)
    requires forall i :: 0 <= i < |ts| ==> WellFormed(ts[i])
    ensures Sanitize(Print(ts)) == Print(IntendedAll(ts)) <==> forall i :: 0 <= i < |ts| ==> !DeceptiveToken(ts[i])
  {
    SanitizeTokens(ts);
    ImagesOf(ts);
    AnyDeceptiveMeans(ts);
  }

  lemma Damaged(t: Token)
    requires WellFormed(t) && DeceptiveToken(t)
    ensures Sanitize(Print([t])) != Print(IntendedAll([t])) && Sanitize(Print([t])) == Image(t)
  {
    SanitizeAgreesIff([t]);
    SanitizeTokens([t]);
    assert [t][0] == t && [t][1..] == [];
  }

  lemma DeceptiveImage(t: Token)
    requires t == Quoted([Escaped('\"')] + NAN_CHARS)
    ensures WellFormed(t) && DeceptiveToken(t) && Image(t) == "\"\\0.0"
  {
    assert t.chars[|t.chars| - 4..] == t.chars && t.chars[..0] == [];
  }

  /** The shortest string that is damaged: an escaped quote, then NaN. */
  lemma DeceptiveStringIsDamaged(t: Token)
    requires t == Quoted([Escaped('\"')] + NAN_CHARS)
    ensures WellFormed(t) && Sanitize(Print([t])) != Print(IntendedAll([t])) && Sanitize(Print([t])) == "\"\\0.0"
  {
    DeceptiveImage(t);
    Damaged(t);
  }

  // ---------------------------------------------------------------- parsing and publishing

  /** One array element as the decoder sees it. */
  datatype Element = BadHeader | Event(eventType: string, eventSymbol: string, raw: string)

  datatype FeedEvent = FeedEvent(subject: string, payload: string, key: Key)

  function Routable(es: seq<Element>): seq<FeedEvent>
    requires BadHeader !in es
  {
    if es == [] then []
    else
      var n := |es| - 1;
      var k := Key(es[n].eventType, es[n].eventSymbol);
      Routable(es[..n]) + if es[n].eventSymbol == "" then [] else [FeedEvent(SubjectFor(k), es[n].raw, k)]
  }

  /** The elements that name a symbol. */
  function HasSymbol(es: seq<Element>): nat -> bool {
    (i: nat) => i < |es| && es[i].Event? && es[i].eventSymbol != ""
  }

  /** The events are those elements, in order: each with its own bytes, type and symbol, on the subject of the two. */
  predicate EventsOfElements(out: seq<FeedEvent>, es: seq<Element>, at: seq<nat>) {
    |out| == |at| && forall i :: 0 <= i < |at| ==>
      && at[i] < |es| && es[at[i]].Event? && out[i].payload == es[at[i]].raw
      && out[i].key == Key(es[at[i]].eventType, es[at[i]].eventSymbol)
      && out[i].subject == "godxfeed." + Lower(es[at[i]].eventType) + "." + es[at[i]].eventSymbol
  }

  lemma {:induction false} RoutablePicks(es: seq<Element>) returns (at: seq<nat>)
    requires BadHeader !in es
    ensures Picks(at, |es|, HasSymbol(es)) && EventsOfElements(Routable(es), es, at)
  {
    if es == [] {
      at := [];
    } else {
      var n := |es| - 1;
      at := RoutablePicks(es[..n]);
      assert es[n].Event? by { assert es[n] in es; }
      PicksSame(at, n, HasSymbol(es[..n]), HasSymbol(es));
      PicksNext(at, n, HasSymbol(es));
      MoreElements(Routable(es[..n]), es[..n], es, at);
      if es[n].eventSymbol == "" {
        assert Routable(es) == Routable(es[..n]) && at + [] == at;
      } else {
        OneMoreEvent(Routable(es[..n]), es, at, n);
        at := at + [n];
      }
    }
  }

  lemma MoreElements(out: seq<FeedEvent>, es: seq<Element>, more: seq<Element>, at: seq<nat>)
    requires EventsOfElements(out, es, at) && es <= more
    ensures EventsOfElements(out, more, at)
  {
  }

  lemma OneMoreEvent(out: seq<FeedEvent>, es: seq<Element>, at: seq<nat>, n: nat)
    requires EventsOfElements(out, es, at) && n < |es| && es[n].Event?
    ensures var k := Key(es[n].eventType, es[n].eventSymbol);
      EventsOfElements(out + [FeedEvent(SubjectFor(k), es[n].raw, k)], es, at + [n])
  {
  }

  /** One malformed header spoils the whole message; an element without a symbol is skipped. */
  method ParseFeedData(data: string, decode: string -> Result<seq<Element>, string>)
    returns (r: Result<seq<FeedEvent>, string>)
    ensures r.Failure? <==> data != "" && (decode(Sanitize(data)).Failure? || BadHeader in decode(Sanitize(data)).value)
    ensures r.Success? ==> r.value == if data == "" then [] else Routable(decode(Sanitize(data)).value)
    ensures r.Success? && data != "" ==> exists at ::
      Picks(at, |decode(Sanitize(data)).value|, HasSymbol(decode(Sanitize(data)).value)) &&
      EventsOfElements(r.value, decode(Sanitize(data)).value, at)
  {
    if |data| == 0 {
      return Success([]);
    }
    var events := decode(Sanitize(data));
    if events.Failure? {
      return Failure("ingress: parse data array: " + events.error);
    }
    var out: seq<FeedEvent> := [];
    var es := events.value;
    for i := 0 to |es|
      invariant BadHeader !in es[..i] && out == Routable(es[..i])
    {
      assert es[..i + 1][..i] == es[..i];
      if es[i].BadHeader? {
        return Failure("ingress: parse event header");
      }
      if es[i].eventSymbol == "" {
        continue;
      }
      var k := Key(es[i].eventType, es[i].eventSymbol);
      out := out + [FeedEvent(SubjectFor(k), es[i].raw, k)];
    }
    assert es[..|es|] == es;
    ghost var at := RoutablePicks(es);
    r := Success(out);
  }

  /** What one message yields: nothing if it is not feed data or does not parse. */
  function EventsOf(m: Option<string>, decode: string -> Result<seq<Element>, string>): seq<FeedEvent> {
    match m
    case None => []
    case Some(data) =>
      if data == "" then []
      else match decode(Sanitize(data))
        case Failure(_) => []
        case Success(es) => if BadHeader in es then [] else Routable(es)
  }

  function AllEvents(ms: seq<Option<string>>, decode: string -> Result<seq<Element>, string>): seq<FeedEvent> {
    if ms == [] then [] else AllEvents(ms[..|ms| - 1], decode) + EventsOf(ms[|ms| - 1], decode)
  }

  /** What one message yields, case by case. */
  lemma EventsOfOne(m: Option<string>, decode: string -> Result<seq<Element>, string>) returns (at: seq<nat>)
    ensures m.None? || m.value == "" || decode(Sanitize(m.value)).Failure? ==> EventsOf(m, decode) == []
    ensures m.Some? && m.value != "" && decode(Sanitize(m.value)).Success? ==>
      var es := decode(Sanitize(m.value)).value;
      if BadHeader in es then EventsOf(m, decode) == []
      else Picks(at, |es|, HasSymbol(es)) && EventsOfElements(EventsOf(m, decode), es, at)
  {
    at := [];
    if m.Some? && m.value != "" && decode(Sanitize(m.value)).Success? {
      var es := decode(Sanitize(m.value)).value;
      if BadHeader !in es {
        at := RoutablePicks(es);
      }
    }
  }

  /** Messages yield their events one after the other. */
  lemma {:induction false} EventsOfMany(a: seq<Option<string>>, b: seq<Option<string>>,
                                        decode: string -> Result<seq<Element>, string>)
    ensures AllEvents(a + b, decode) == AllEvents(a, decode) + AllEvents(b, decode)
    ensures |a| == 1 ==> AllEvents(a, decode) == EventsOf(a[0], decode)
    decreases |b|
  {
    assert |a| == 1 ==> a[..0] == [] && AllEvents(a[..0], decode) == [];
    if b == [] {
      assert a + b == a;
    } else {
      var n := |b| - 1;
      EventsOfMany(a, b[..n], decode);
      assert (a + b)[..|a| + n] == a + b[..n] && (a + b)[|a| + n] == b[n];
      Associate(AllEvents(a, decode), AllEvents(b[..n], decode), EventsOf(b[n], decode));
    }
  }

  /** The decoder sees the intended tokens, never the quoted NaN, when no string ends deceptively. */
  lemma DecodesWhatIsIntended(ts: seq<Token>, decode: string -> Result<seq<Element>, string>)
    requires forall i :: 0 <= i < |ts| ==> WellFormed(ts[i]) && !DeceptiveToken(ts[i])
    requires Print(ts) != ""
    ensures EventsOf(Some(Print(ts)), decode) ==
            match decode(Print(IntendedAll(ts)))
            case Failure(_) => []
            case Success(es) => if BadHeader in es then [] else Routable(es)
  {
    SanitizeAgreesIff(ts);
  }

  /** An event the broker took, and what the clock read when it was observed. */
  datatype Publication = Publication(event: FeedEvent, at: int)

  /**
   The broker's answer to each publish attempt and the clock's reading after it, numbered from the start of the loop.
   */
  datatype World = World(accepts: nat -> bool, clock: nat -> int)

  /** What comes of the n-th attempt. */
  function Attempt(e: FeedEvent, n: nat, w: World): seq<Publication> {
    if w.accepts(n) then [Publication(e, w.clock(n))] else []
  }

  /** The publications that come of attempting these events in order. */
  function Accepted(es: seq<FeedEvent>, w: World): seq<Publication> {
    if es == [] then []
    else var n := |es| - 1; Accepted(es[..n], w) + Attempt(es[n], n, w)
  }

  /** Publication i is that of attempt at[i]: its event, at the clock's reading then. */
  predicate PublishedAt(ps: seq<Publication>, es: seq<FeedEvent>, w: World, at: seq<nat>) {
    |ps| == |at| && forall i :: 0 <= i < |at| ==>
      at[i] < |es| && ps[i].event == es[at[i]] && ps[i].at == w.clock(at[i])
  }

  lemma {:induction false} AcceptedPicks(es: seq<FeedEvent>, w: World) returns (at: seq<nat>)
    ensures Picks(at, |es|, w.accepts) && PublishedAt(Accepted(es, w), es, w, at)
  {
    if es == [] {
      at := [];
    } else {
      var n := |es| - 1;
      at := AcceptedPicks(es[..n], w);
      PicksNext(at, n, w.accepts);
      at := at + if w.accepts(n) then [n] else [];
    }
  }

  function CountOf(ps: seq<Publication>, k: Key): nat {
    if ps == [] then 0 else var n := |ps| - 1; CountOf(ps[..n], k) + if ps[n].event.key == k then 1 else 0
  }

  /** A key's state after these publications: its own observed one after the other, at their times. */
  function After(st: SubState, k: Key, ps: seq<Publication>): SubState {
    if ps == [] then st
    else
      var n := |ps| - 1;
      if ps[n].event.key == k then Seen(After(st, k, ps[..n]), ps[n].at) else After(st, k, ps[..n])
  }

  predicate FirstOwn(ps: seq<Publication>, k: Key, i: nat) {
    i < |ps| && ps[i].event.key == k && forall j :: 0 <= j < i ==> ps[j].event.key != k
  }

  /** The last of the key's own publications. */
  predicate LastOwn(ps: seq<Publication>, k: Key, i: nat) {
    i < |ps| && ps[i].event.key == k && forall j :: i < j < |ps| ==> ps[j].event.key != k
  }

  /**
   What that means: the count grows by the number of the key's own publications; its other facts move with the clock.
   */
  lemma {:induction false} AfterMeans(st: SubState, k: Key, ps: seq<Publication>)
    ensures var t := After(st, k, ps);
      && t.subject == st.subject && t.msgCount == st.msgCount + CountOf(ps, k)
      && (CountOf(ps, k) == 0 ==> t == st)
      && (st.firstSeenAt != 0 ==> t.firstSeenAt == st.firstSeenAt)
      && (CountOf(ps, k) > 0 ==> exists i: nat :: LastOwn(ps, k, i) && t.lastSeenAt == ps[i].at)
  {
    if ps == [] {
    } else {
      var n := |ps| - 1;
      AfterMeans(st, k, ps[..n]);
      if ps[n].event.key == k {
        assert LastOwn(ps, k, n) && After(st, k, ps).lastSeenAt == ps[n].at;
      } else if CountOf(ps, k) > 0 {
        var i: nat :| LastOwn(ps[..n], k, i) && After(st, k, ps[..n]).lastSeenAt == ps[..n][i].at;
        assert forall j :: i < j < n ==> ps[j] == ps[..n][j];
        assert LastOwn(ps, k, i);
      }
    }
  }

  lemma {:induction false} NoneOwn(ps: seq<Publication>, k: Key)
    requires CountOf(ps, k) == 0
    ensures forall i :: 0 <= i < |ps| ==> ps[i].event.key != k
  {
    if ps == [] {
    } else {
      var n := |ps| - 1;
      NoneOwn(ps[..n], k);
      assert forall i :: 0 <= i < n ==> ps[i] == ps[..n][i];
    }
  }

  /** A key not seen before is first seen at its first own publication, on a clock that never reads 0. */
  lemma {:induction false} FirstSighting(st: SubState, k: Key, ps: seq<Publication>) returns (i: nat)
    requires st.firstSeenAt == 0 && CountOf(ps, k) > 0 && forall j :: 0 <= j < |ps| ==> ps[j].at != 0
    ensures FirstOwn(ps, k, i) && After(st, k, ps).firstSeenAt == ps[i].at
  {
    var n := |ps| - 1;
    if CountOf(ps[..n], k) > 0 {
      i := FirstSighting(st, k, ps[..n]);
      assert ps[i] == ps[..n][i] && forall j :: 0 <= j < i ==> ps[j] == ps[..n][j];
    } else {
      AfterMeans(st, k, ps[..n]);
      NoneOwn(ps[..n], k);
      assert forall j :: 0 <= j < n ==> ps[j] == ps[..n][j];
      i := n;
    }
  }

  lemma AcceptedSnoc(es: seq<FeedEvent>, e: FeedEvent, w: World)
    ensures Accepted(es + [e], w) == Accepted(es, w) + Attempt(e, |es|, w)
  {
    assert (es + [e])[..|es|] == es;
  }

  lemma AfterNext(st: SubState, k: Key, ps: seq<Publication>, p: Publication)
    ensures After(st, k, ps + [p]) == if p.event.key == k then Seen(After(st, k, ps), p.at) else After(st, k, ps)
  {
    assert (ps + [p])[..|ps|] == ps;
  }

  /** The world from attempt n on. */
  function From(w: World, n: nat): World {
    World((i: nat) => w.accepts(n + i), (i: nat) => w.clock(n + i))
  }

  lemma AcceptedFromNext(done: seq<FeedEvent>, batch: seq<FeedEvent>, e: FeedEvent, w: World)
    requires Accepted(done + batch, w) == Accepted(done, w) + Accepted(batch, From(w, |done|))
    ensures Accepted(done + (batch + [e]), w) == Accepted(done, w) + Accepted(batch + [e], From(w, |done|))
  {
    Associate(done, batch, [e]);
    AcceptedSnoc(done + batch, e, w);
    AcceptedSnoc(batch, e, From(w, |done|));
    AttemptFrom(e, |done|, |batch|, w);
    Associate(Accepted(done, w), Accepted(batch, From(w, |done|)), Attempt(e, |done| + |batch|, w));
  }

  /** Attempts made after others are those of the world from there on. */
  lemma {:induction false} AcceptedFrom(done: seq<FeedEvent>, batch: seq<FeedEvent>, w: World)
    ensures Accepted(done + batch, w) == Accepted(done, w) + Accepted(batch, From(w, |done|))
    decreases |batch|
  {
    if batch == [] {
      assert done + batch == done && Accepted(done, w) + [] == Accepted(done, w);
    } else {
      var init, last := batch[..|batch| - 1], batch[|batch| - 1];
      assert batch == init + [last];
      AcceptedFrom(done, init, w);
      AcceptedFromNext(done, init, last, w);
    }
  }

  lemma AttemptFrom(e: FeedEvent, d: nat, n: nat, w: World)
    ensures Attempt(e, n, From(w, d)) == Attempt(e, d + n, w)
  {
  }

  /** Every key's state has advanced by its own publications among these, and by nothing else. */
  predicate Advanced(before: map<Key, SubState>, after: map<Key, SubState>, ps: seq<Publication>) {
    after.Keys == before.Keys && forall k :: k in after ==> after[k] == After(before[k], k, ps)
  }

  lemma AdvancedNext(before: map<Key, SubState>, mid: map<Key, SubState>, after: map<Key, SubState>,
                     ps: seq<Publication>, p: Publication)
    requires Advanced(before, mid, ps) && after.Keys == mid.Keys
    requires forall k :: k in after ==> after[k] == if k == p.event.key then Seen(mid[k], p.at) else mid[k]
    ensures Advanced(before, after, ps + [p])
  {
    forall k | k in after ensures after[k] == After(before[k], k, ps + [p]) {
      AfterNext(before[k], k, ps, p);
    }
  }

  lemma AdvancedJoin(before: map<Key, SubState>, mid: map<Key, SubState>, after: map<Key, SubState>,
                     ps: seq<Publication>, more: seq<Publication>)
    requires Advanced(before, mid, ps) && Advanced(mid, after, more)
    ensures Advanced(before, after, ps + more)
  {
    forall k | k in after ensures after[k] == After(before[k], k, ps + more) {
      AfterJoin(before[k], k, ps, more);
    }
  }

  /** Publishes one batch, after `attempts` attempts have been made. */
  method PublishBatch(batch: seq<FeedEvent>, attempts: nat, w: World, m: SubscriptionManager)
    returns (published: seq<Publication>)
    modifies m`state
    ensures published == Accepted(batch, From(w, attempts))
    ensures exists at ::
      Picks(at, |batch|, From(w, attempts).accepts) && PublishedAt(published, batch, From(w, attempts), at)
    ensures Advanced(old(m.state), m.state, published)
  {
    published := [];
    for j := 0 to |batch|
      invariant published == Accepted(batch[..j], From(w, attempts))
      invariant Advanced(old(m.state), m.state, published)
    {
      AcceptedSnoc(batch[..j], batch[j], From(w, attempts));
      assert batch[..j + 1] == batch[..j] + [batch[j]];
      if !w.accepts(attempts + j) {
        continue;
      }
      var p := Publication(batch[j], w.clock(attempts + j));
      ghost var before := m.state;
      m.Observe(p.event.key.event, p.event.key.symbol, p.at);
      AdvancedNext(old(m.state), before, m.state, published, p);
      published := published + [p];
    }
    assert batch[..|batch|] == batch;
    ghost var at := AcceptedPicks(batch, From(w, attempts));
  }

  /**
   The ingress loop over the messages it takes before the feed closes or the context is cancelled. Conservation:
   what is published is exactly the accepted events, in order, and every registered key has observed its own
   published events and nothing else.
   */
  method RunIngressLoop(ms: seq<Option<string>>, decode: string -> Result<seq<Element>, string>, w: World,
                        m: SubscriptionManager) returns (published: seq<Publication>)
    modifies m`state
    ensures published == Accepted(AllEvents(ms, decode), w)
    ensures exists at ::
      Picks(at, |AllEvents(ms, decode)|, w.accepts) && PublishedAt(published, AllEvents(ms, decode), w, at)
    ensures Advanced(old(m.state), m.state, published)
  {
    published := [];
    var attempts := 0;
    for i := 0 to |ms|
      invariant attempts == |AllEvents(ms[..i], decode)|
      invariant published == Accepted(AllEvents(ms[..i], decode), w)
      invariant Advanced(old(m.state), m.state, published)
    {
      ghost var done := AllEvents(ms[..i], decode);
      assert ms[..i + 1][..i] == ms[..i];
      assert AllEvents(ms[..i + 1], decode) == done + EventsOf(ms[i], decode);
      assert done + [] == done;
      if ms[i].None? {
        continue;
      }
      var parsed := ParseFeedData(ms[i].value, decode);
      if parsed.Failure? {
        continue;
      }
      ghost var before := m.state;
      var batch := PublishBatch(parsed.value, attempts, w, m);
      AcceptedFrom(done, parsed.value, w);
      AdvancedJoin(old(m.state), before, m.state, published, batch);
      published := published + batch;
      attempts := attempts + |parsed.value|;
    }
    assert ms[..|ms|] == ms;
    ghost var at := AcceptedPicks(AllEvents(ms, decode), w);
  }

  lemma {:induction false} AfterJoin(st: SubState, k: Key, a: seq<Publication>, b: seq<Publication>)
    ensures After(st, k, a + b) == After(After(st, k, a), k, b)
    decreases |b|
  {
    if b == [] {
      assert a + b == a;
    } else {
      var n := |b| - 1;
      AfterJoin(st, k, a, b[..n]);
      assert (a + b)[..|a| + n] == a + b[..n] && (a + b)[|a| + n] == b[n];
    }
  }
}
