/** Redaction of the setup code in a raw query string. A Go string is a byte sequence; every
    byte is one `char` here. */
module QueryRedaction {
  import opened Optional

  /** The parameter name to hide and the pair that stands in for it in the log. */
  datatype Rule = Rule(code: string, mask: string)

  const SETUP_CODE := Rule("setup_code", "setup_code" + ['='] + "redacted")

  // ---------------------------------------------------------------- decoding a name
  // url.QueryUnescape: percent-encoding of section 2.1 of RFC 3986, and '+' for a space

  function HexValue(c: char): Option<nat> {
    if '0' <= c <= '9' then Some((c - '0') as nat)
    else if 'a' <= c <= 'f' then Some((c - 'a') as nat + 10)
    else if 'A' <= c <= 'F' then Some((c - 'A') as nat + 10)
    else None
  }

  function Unescape(s: string): Option<string> {
    if s == "" then Some("")
    else if s[0] == '%' then
      if |s| < 3 || HexValue(s[1]).None? || HexValue(s[2]).None? then None
      else
        var rest := Unescape(s[3..]);
        if rest.None? then None
        else Some([(HexValue(s[1]).value * 16 + HexValue(s[2]).value) as char] + rest.value)
    else
      var rest := Unescape(s[1..]);
      if rest.None? then None else Some([if s[0] == '+' then ' ' else s[0]] + rest.value)
  }

  // ---------------------------------------------------------------- cutting strings

  /** What a string is cut at. */
  datatype Cut = AtAmp | AtSemi | AtEither | AtEquals

  predicate Cuts(k: Cut, c: char) {
    match k
    case AtAmp => c == '&'
    case AtSemi => c == ';'
    case AtEither => c == '&' || c == ';'
    case AtEquals => c == '='
  }

  ghost predicate Clean(k: Cut, s: string) { forall j :: 0 <= j < |s| ==> !Cuts(k, s[j]) }

  /** The first cut, or the end. */
  function Find(k: Cut, s: string): (i: nat)
    ensures i <= |s| && (i < |s| ==> Cuts(k, s[i]))
    ensures forall j :: 0 <= j < i ==> !Cuts(k, s[j])
  {
    if s == "" || Cuts(k, s[0]) then 0 else 1 + Find(k, s[1..])
  }

  lemma FindIs(k: Cut, s: string, i: nat)
    requires i <= |s| && (i < |s| ==> Cuts(k, s[i]))
    requires forall j :: 0 <= j < i ==> !Cuts(k, s[j])
    ensures Find(k, s) == i
  {
  }

  /** Where `h` + c + rest is cut when `h` is clean and c is a cut. */
  lemma FindAfter(k: Cut, h: string, c: char, rest: string)
    requires Clean(k, h) && Cuts(k, c)
    ensures var q := h + [c] + rest;
            Find(k, q) == |h| < |q| && q[|h|] == c && q[..|h|] == h && q[|h| + 1..] == rest
  {
    var q := h + [c] + rest;
    FindIs(k, q, |h|);
  }

  function Name(pair: string): string { pair[..Find(AtEquals, pair)] }

  /** The part after the first '=', empty without one. */
  function Value(pair: string): string {
    var i := Find(AtEquals, pair);
    if i < |pair| then pair[i + 1..] else ""
  }

  predicate IsCode(rule: Rule, pair: string) { Unescape(Name(pair)) == Some(rule.code) }

  function Masked(rule: Rule, pair: string): string { if IsCode(rule, pair) then rule.mask else pair }

  /** The stand-in is itself a pair for the code, in one piece, and the empty pair is not one. */
  ghost predicate ValidRule(rule: Rule) {
    && rule.code != ""
    && rule.mask != "" && Clean(AtEither, rule.mask) && IsCode(rule, rule.mask)
    && Unescape(Value(rule.mask)).Some?
  }

  // ---------------------------------------------------------------- the rewriter

  /** Every pair between '&' and ';' masked if it is the code, every other byte as it was. */
  function Redacted(rule: Rule, q: string): string
    decreases |q|
  {
    var i := Find(AtEither, q);
    if i < |q| then Masked(rule, q[..i]) + [q[i]] + Redacted(rule, q[i + 1..])
    else if q == "" then ""
    else Masked(rule, q)
  }

  lemma RedactedAt(rule: Rule, h: string, c: char, rest: string)
    requires Clean(AtEither, h) && Cuts(AtEither, c)
    ensures Redacted(rule, h + [c] + rest) == Masked(rule, h) + [c] + Redacted(rule, rest)
  {
    FindAfter(AtEither, h, c, rest);
  }

  lemma RedactedPlain(rule: Rule, h: string)
    requires ValidRule(rule) && Clean(AtEither, h)
    ensures Redacted(rule, h) == Masked(rule, h)
  {
    FindIs(AtEither, h, |h|);
    if h == "" {
      assert Name(h) == "";
    }
  }

  /** Every query is a plain pair, or a pair, a separator and a shorter query. */
  lemma CutAt(k: Cut, q: string)
    ensures var i := Find(k, q);
            Clean(k, q[..i]) && (i < |q| ==> q == q[..i] + [q[i]] + q[i + 1..])
  {
  }

  predicate Mentions(rule: Rule, q: string)
    decreases |q|
  {
    var i := Find(AtEither, q);
    if i < |q| then IsCode(rule, q[..i]) || Mentions(rule, q[i + 1..])
    else q != "" && IsCode(rule, q)
  }

  /** The loop has written `out` for what lies before `rest`. */
  ghost predicate Rewriting(rule: Rule, rawQuery: string, rest: string, out: string, found: bool) {
    && Redacted(rule, rawQuery) == out + Redacted(rule, rest)
    && (Mentions(rule, rawQuery) <==> found || Mentions(rule, rest))
  }

  /** redactSetupCodeInQuery: the loop over a shrinking string, writing to a builder. */
  method RedactQuery(rule: Rule, rawQuery: string) returns (out: string, found: bool)
    ensures out == Redacted(rule, rawQuery)
    ensures found == Mentions(rule, rawQuery)
    ensures !found ==> out == rawQuery
  {
    out, found := "", false;
    var rest := rawQuery;
    while rest != ""
      invariant Rewriting(rule, rawQuery, rest, out, found)
      decreases |rest|
    {
      ghost var before, written, foundBefore := rest, out, found;
      var pair, sep, tail := CutPair(rest);
      rest := tail;
      if Unescape(Name(pair)) == Some(rule.code) {
        out := out + rule.mask;
        found := true;
      } else {
        out := out + pair;
      }
      out := out + sep;
      Writes(rule, written, before, pair, sep, rest);
      StillRewriting(rule, rawQuery, before, written, foundBefore, pair, sep, rest);
    }
    if !found {
      NotFoundIsVerbatim(rule, rawQuery);
    }
  }

  ghost predicate IsCut(q: string, pair: string, sep: string, rest: string) {
    var i := Find(AtEither, q);
    if i < |q| then pair == q[..i] && sep == [q[i]] && rest == q[i + 1..]
    else pair == q && sep == "" && rest == ""
  }

  /** The first pair, the separator after it if there is one, and what is left. */
  method CutPair(q: string) returns (pair: string, sep: string, rest: string)
    requires q != ""
    ensures IsCut(q, pair, sep, rest) && |rest| < |q|
  {
    var i := Find(AtEither, q);
    pair, sep, rest := q, "", "";
    if i < |q| {
      pair, sep, rest := q[..i], [q[i]], q[i + 1..];
    }
  }

  lemma StillRewriting(rule: Rule, rawQuery: string, q: string, out: string, found: bool,
                       pair: string, sep: string, rest: string)
    requires Rewriting(rule, rawQuery, q, out, found)
    requires out + Redacted(rule, q) == out + Masked(rule, pair) + sep + Redacted(rule, rest)
    requires Mentions(rule, q) <==> IsCode(rule, pair) || Mentions(rule, rest)
    ensures Rewriting(rule, rawQuery, rest, out + Masked(rule, pair) + sep, found || IsCode(rule, pair))
  {
  }

  lemma Assoc(a: string, b: string, c: string, d: string)
    ensures a + (b + c + d) == a + b + c + d
  {
  }

  /** One turn of the loop, on the specification. */
  lemma Writes(rule: Rule, out: string, q: string, pair: string, sep: string, rest: string)
    requires q != "" && IsCut(q, pair, sep, rest)
    ensures out + Redacted(rule, q) == out + Masked(rule, pair) + sep + Redacted(rule, rest)
    ensures Mentions(rule, q) <==> IsCode(rule, pair) || Mentions(rule, rest)
  {
    if sep == "" {
      assert Redacted(rule, rest) == "" && !Mentions(rule, rest);
      assert Redacted(rule, q) == Masked(rule, pair) + sep + "";
    } else {
      assert Redacted(rule, q) == Masked(rule, pair) + sep + Redacted(rule, rest);
    }
    Assoc(out, Masked(rule, pair), sep, Redacted(rule, rest));
  }

  lemma {:induction false} NotFoundIsVerbatim(rule: Rule, q: string)
    requires !Mentions(rule, q)
    ensures Redacted(rule, q) == q
    decreases |q|
  {
    var i := Find(AtEither, q);
    CutAt(AtEither, q);
    if i < |q| {
      NotFoundIsVerbatim(rule, q[i + 1..]);
      assert Masked(rule, q[..i]) == q[..i];
    }
  }

  // ---------------------------------------------------------------- segments

  /** A pair and the separator after it; only the last segment can go without one. */
  datatype Segment = Segment(pair: string, sep: Option<char>)

  function Segments(q: string): seq<Segment>
    decreases |q|
  {
    var i := Find(AtEither, q);
    if i < |q| then [Segment(q[..i], Some(q[i]))] + Segments(q[i + 1..])
    else if q == "" then []
    else [Segment(q, None)]
  }

  function RedactAll(rule: Rule, segs: seq<Segment>): (r: seq<Segment>)
    ensures |r| == |segs|
    ensures forall i :: 0 <= i < |segs| ==> r[i] == Segment(Masked(rule, segs[i].pair), segs[i].sep)
  {
    if segs == [] then [] else [Segment(Masked(rule, segs[0].pair), segs[0].sep)] + RedactAll(rule, segs[1..])
  }

  function Join(segs: seq<Segment>): string {
    if segs == [] then ""
    else segs[0].pair + (if segs[0].sep.Some? then [segs[0].sep.value] else "") + Join(segs[1..])
  }

  lemma JoinCons(seg: Segment, segs: seq<Segment>)
    ensures Join([seg] + segs) == seg.pair + (if seg.sep.Some? then [seg.sep.value] else "") + Join(segs)
  {
    assert ([seg] + segs)[1..] == segs;
  }

  lemma {:induction false} JoinSegments(q: string)
    ensures Join(Segments(q)) == q
    decreases |q|
  {
    var i := Find(AtEither, q);
    CutAt(AtEither, q);
    if i < |q| {
      JoinSegments(q[i + 1..]);
      JoinCons(Segment(q[..i], Some(q[i])), Segments(q[i + 1..]));
    } else if q != "" {
      JoinCons(Segment(q, None), []);
    }
  }

  ghost predicate SomeCode(rule: Rule, segs: seq<Segment>) {
    exists i :: 0 <= i < |segs| && IsCode(rule, segs[i].pair)
  }

  lemma SomeCodeCons(rule: Rule, seg: Segment, segs: seq<Segment>)
    ensures SomeCode(rule, [seg] + segs) <==> IsCode(rule, seg.pair) || SomeCode(rule, segs)
  {
    var all := [seg] + segs;
    assert all[0] == seg && forall i :: 0 <= i < |segs| ==> all[i + 1] == segs[i];
    if i :| 1 <= i < |all| && IsCode(rule, all[i].pair) {
      assert segs[i - 1] == all[i];
    }
  }

  /** A query is reported as carrying the code exactly when one of its segments is the code. */
  lemma {:induction false} FoundIffSomeSegmentIsCode(rule: Rule, q: string)
    ensures Mentions(rule, q) <==> SomeCode(rule, Segments(q))
    decreases |q|
  {
    var i := Find(AtEither, q);
    if i < |q| {
      FoundIffSomeSegmentIsCode(rule, q[i + 1..]);
      SomeCodeCons(rule, Segment(q[..i], Some(q[i])), Segments(q[i + 1..]));
    } else if q != "" {
      SomeCodeCons(rule, Segment(q, None), []);
      assert [Segment(q, None)] + [] == [Segment(q, None)];
    }
  }

  /** The segments are what lies between the '&' and ';' of the query; together they are the query. */
  lemma {:induction false} SegmentsAreCut(q: string)
    ensures Join(Segments(q)) == q
    ensures forall i, j :: 0 <= i < |Segments(q)| && 0 <= j < |Segments(q)[i].pair| ==>
              Segments(q)[i].pair[j] != '&' && Segments(q)[i].pair[j] != ';'
    ensures forall i :: 0 <= i < |Segments(q)| ==>
              Segments(q)[i].sep in {Some('&'), Some(';')} || (i == |Segments(q)| - 1 && Segments(q)[i].sep == None)
    decreases |q|
  {
    JoinSegments(q);
    var i := Find(AtEither, q);
    if i < |q| {
      SegmentsAreCut(q[i + 1..]);
      assert forall k :: 1 <= k < |Segments(q)| ==> Segments(q)[k] == Segments(q[i + 1..])[k - 1];
    }
  }

  lemma MaskedClean(rule: Rule, pair: string)
    requires ValidRule(rule) && Clean(AtEither, pair)
    ensures Clean(AtEither, Masked(rule, pair))
    ensures pair != "" ==> Masked(rule, pair) != ""
    ensures pair == "" ==> Masked(rule, pair) == ""
  {
    if pair == "" {
      assert Name(pair) == "";
    }
  }

  lemma SegmentsAt(h: string, c: char, rest: string)
    requires Clean(AtEither, h) && Cuts(AtEither, c)
    ensures Segments(h + [c] + rest) == [Segment(h, Some(c))] + Segments(rest)
  {
    FindAfter(AtEither, h, c, rest);
  }

  lemma SegmentsPlain(h: string)
    requires Clean(AtEither, h)
    ensures Segments(h) == if h == "" then [] else [Segment(h, None)]
  {
    FindIs(AtEither, h, |h|);
  }

  lemma RedactAllCons(rule: Rule, seg: Segment, segs: seq<Segment>)
    ensures RedactAll(rule, [seg] + segs) == [Segment(Masked(rule, seg.pair), seg.sep)] + RedactAll(rule, segs)
  {
    assert ([seg] + segs)[1..] == segs;
  }

  /** Redaction keeps the sequence of segments and separators and changes exactly the pairs whose
      decoded name is the code's. */
  lemma {:induction false} RedactionKeepsSegments(rule: Rule, q: string)
    requires ValidRule(rule)
    ensures Segments(Redacted(rule, q)) == RedactAll(rule, Segments(q))
    decreases |q|
  {
    var i := Find(AtEither, q);
    CutAt(AtEither, q);
    var pair := q[..i];
    MaskedClean(rule, pair);
    if i < |q| {
      var rest := q[i + 1..];
      RedactionKeepsSegments(rule, rest);
      SegmentsAt(pair, q[i], rest);
      RedactedAt(rule, pair, q[i], rest);
      SegmentsAt(Masked(rule, pair), q[i], Redacted(rule, rest));
      RedactAllCons(rule, Segment(pair, Some(q[i])), Segments(rest));
    } else {
      assert pair == q;
      RedactedPlain(rule, q);
      SegmentsPlain(q);
      SegmentsPlain(Masked(rule, q));
      RedactAllCons(rule, Segment(q, None), []);
    }
  }

  lemma MaskedTwice(rule: Rule, pair: string)
    requires ValidRule(rule)
    ensures Masked(rule, Masked(rule, pair)) == Masked(rule, pair)
  {
  }

  /** Redacting twice changes nothing more. */
  lemma {:induction false} RedactionIsIdempotent(rule: Rule, q: string)
    requires ValidRule(rule)
    ensures Redacted(rule, Redacted(rule, q)) == Redacted(rule, q)
    decreases |q|
  {
    var i := Find(AtEither, q);
    CutAt(AtEither, q);
    var pair := q[..i];
    MaskedClean(rule, pair);
    MaskedTwice(rule, pair);
    if i < |q| {
      var rest := q[i + 1..];
      RedactionIsIdempotent(rule, rest);
      RedactedAt(rule, Masked(rule, pair), q[i], Redacted(rule, rest));
    } else {
      assert pair == q;
      RedactedPlain(rule, q);
      RedactedPlain(rule, Masked(rule, q));
    }
  }

  /** The log does not depend on the code: two queries that differ only in the pairs carrying it
      (its value, and how its name is spelled) are redacted to the same string. */
  lemma {:induction false} CodeDoesNotReachTheLog(rule: Rule, q1: string, q2: string)
    requires ValidRule(rule)
    requires |Segments(q1)| == |Segments(q2)|
    requires forall i :: 0 <= i < |Segments(q1)| ==>
               || Segments(q1)[i] == Segments(q2)[i]
               || (&& IsCode(rule, Segments(q1)[i].pair) && IsCode(rule, Segments(q2)[i].pair)
                   && Segments(q1)[i].sep == Segments(q2)[i].sep)
    ensures Redacted(rule, q1) == Redacted(rule, q2)
  {
    RedactionKeepsSegments(rule, q1);
    RedactionKeepsSegments(rule, q2);
    assert RedactAll(rule, Segments(q1)) == RedactAll(rule, Segments(q2));
    JoinSegments(Redacted(rule, q1));
    JoinSegments(Redacted(rule, q2));
  }

  // ---------------------------------------------------------------- what an '&'-only parser reads

  /** url.ParseQuery on one '&'-separated piece: a ';' or a bad escape drops it. */
  function ParsePair(h: string): seq<(string, string)> {
    if h == "" || Find(AtSemi, h) < |h| then []
    else
      var key, value := Unescape(Name(h)), Unescape(Value(h));
      if key.None? || value.None? then [] else [(key.value, value.value)]
  }

  function Parse(q: string): seq<(string, string)>
    decreases |q|
  {
    var i := Find(AtAmp, q);
    if i < |q| then ParsePair(q[..i]) + Parse(q[i + 1..]) else ParsePair(q)
  }

  /** The pairs that are not the code. */
  function Others(code: string, ps: seq<(string, string)>): seq<(string, string)> {
    if ps == [] then [] else (if ps[0].0 == code then [] else [ps[0]]) + Others(code, ps[1..])
  }

  /** The code appears with the stand-in's value only. */
  ghost predicate CodesHidden(rule: Rule, ps: seq<(string, string)>) {
    forall i :: 0 <= i < |ps| ==> ps[i].0 == rule.code ==> Some(ps[i].1) == Unescape(Value(rule.mask))
  }

  lemma {:induction false} OthersConcat(code: string, a: seq<(string, string)>, b: seq<(string, string)>)
    ensures Others(code, a + b) == Others(code, a) + Others(code, b)
  {
    if a == [] {
      assert a + b == b;
    } else {
      OthersConcat(code, a[1..], b);
      assert (a + b)[1..] == a[1..] + b && (a + b)[0] == a[0];
    }
  }

  lemma Assoc5(a: string, b: string, c: string, d: string, e: string)
    ensures a + b + (c + d + e) == (a + b + c) + d + e
  {
  }

  /** Redaction works on each '&'-separated piece by itself. */
  lemma {:induction false} RedactPieces(rule: Rule, h: string, rest: string)
    requires ValidRule(rule) && Clean(AtAmp, h)
    ensures Redacted(rule, h + ['&'] + rest) == Redacted(rule, h) + ['&'] + Redacted(rule, rest)
    decreases |h|
  {
    var i := Find(AtEither, h);
    CutAt(AtEither, h);
    if i < |h| {
      var pair, sep, tail := h[..i], h[i], h[i + 1..];
      RedactPieces(rule, tail, rest);
      RedactedAt(rule, pair, sep, tail + ['&'] + rest);
      RedactedAt(rule, pair, sep, tail);
      Assoc5(pair, [sep], tail, ['&'], rest);
      Assoc5(Masked(rule, pair), [sep], Redacted(rule, tail), ['&'], Redacted(rule, rest));
    } else {
      assert h[..i] == h;
      RedactedAt(rule, h, '&', rest);
      RedactedPlain(rule, h);
    }
  }

  lemma CleanConcat(k: Cut, a: string, c: char, b: string)
    ensures Clean(k, a + [c] + b) <==> Clean(k, a) && !Cuts(k, c) && Clean(k, b)
  {
    var s := a + [c] + b;
    assert forall j :: 0 <= j < |a| ==> s[j] == a[j];
    assert forall j :: 0 <= j < |b| ==> s[|a| + 1 + j] == b[j];
    assert s[|a|] == c;
  }

  /** A piece stays free of '&', and keeps its ';' if it had one. */
  lemma {:induction false} RedactPieceSeparators(rule: Rule, h: string)
    requires ValidRule(rule) && Clean(AtAmp, h)
    ensures Clean(AtAmp, Redacted(rule, h))
    ensures Clean(AtSemi, h) <==> Clean(AtSemi, Redacted(rule, h))
    decreases |h|
  {
    var i := Find(AtEither, h);
    CutAt(AtEither, h);
    var pair := h[..i];
    MaskedClean(rule, pair);
    EitherClean(pair);
    EitherClean(Masked(rule, pair));
    if i < |h| {
      var tail := h[i + 1..];
      CleanConcat(AtAmp, pair, h[i], tail);
      CleanConcat(AtSemi, pair, h[i], tail);
      RedactPieceSeparators(rule, tail);
      CleanConcat(AtAmp, Masked(rule, pair), h[i], Redacted(rule, tail));
      CleanConcat(AtSemi, Masked(rule, pair), h[i], Redacted(rule, tail));
    } else {
      assert pair == h;
      RedactedPlain(rule, h);
    }
  }

  lemma EitherClean(s: string)
    ensures Clean(AtEither, s) <==> Clean(AtAmp, s) && Clean(AtSemi, s)
  {
  }

  lemma FindClean(k: Cut, s: string)
    ensures Find(k, s) == |s| <==> Clean(k, s)
  {
  }

  lemma ParsePairMasked(rule: Rule, h: string)
    requires ValidRule(rule) && Clean(AtEither, h)
    ensures Others(rule.code, ParsePair(Masked(rule, h))) == Others(rule.code, ParsePair(h))
    ensures CodesHidden(rule, ParsePair(Masked(rule, h)))
  {
    if IsCode(rule, h) {
      EitherClean(rule.mask);
      FindClean(AtSemi, rule.mask);
      assert ParsePair(rule.mask) == [(rule.code, Unescape(Value(rule.mask)).value)];
    }
  }

  lemma ParsePairRedacted(rule: Rule, h: string)
    requires ValidRule(rule) && Clean(AtAmp, h)
    ensures Others(rule.code, ParsePair(Redacted(rule, h))) == Others(rule.code, ParsePair(h))
    ensures CodesHidden(rule, ParsePair(Redacted(rule, h)))
  {
    EitherClean(h);
    if Clean(AtSemi, h) {
      RedactedPlain(rule, h);
      ParsePairMasked(rule, h);
    } else {
      RedactPieceSeparators(rule, h);
      FindClean(AtSemi, h);
      FindClean(AtSemi, Redacted(rule, h));
    }
  }

  lemma ParseSplit(h: string, rest: string)
    requires Clean(AtAmp, h)
    ensures Parse(h + ['&'] + rest) == ParsePair(h) + Parse(rest)
    ensures Parse(h) == ParsePair(h)
  {
    FindAfter(AtAmp, h, '&', rest);
    FindIs(AtAmp, h, |h|);
  }

  /** How the parser reads a query cut at its first '&', before and after redaction. */
  lemma {:induction false} ParsePieces(rule: Rule, h: string, rest: string)
    requires ValidRule(rule) && Clean(AtAmp, h)
    ensures var q := h + ['&'] + rest;
            Parse(q) == ParsePair(h) + Parse(rest) &&
                Parse(Redacted(rule, q)) == ParsePair(Redacted(rule, h)) + Parse(Redacted(rule, rest))
  {
    RedactPieceSeparators(rule, h);
    RedactPieces(rule, h, rest);
    ParseSplit(h, rest);
    ParseSplit(Redacted(rule, h), Redacted(rule, rest));
  }

  lemma HiddenConcat(rule: Rule, a: seq<(string, string)>, b: seq<(string, string)>)
    requires CodesHidden(rule, a) && CodesHidden(rule, b)
    ensures CodesHidden(rule, a + b)
  {
  }

  /** What the server's own parser reads from the redacted query: every other parameter as
      before, in order, and the code with nothing but the stand-in's value. */
  lemma {:induction false} ParserSeesOnlyRedactedCodes(rule: Rule, q: string)
    requires ValidRule(rule)
    ensures Others(rule.code, Parse(Redacted(rule, q))) == Others(rule.code, Parse(q))
    ensures CodesHidden(rule, Parse(Redacted(rule, q)))
    decreases |q|
  {
    var i := Find(AtAmp, q);
    CutAt(AtAmp, q);
    if i < |q| {
      var h, rest := q[..i], q[i + 1..];
      ParserSeesOnlyRedactedCodes(rule, rest);
      ParsePieces(rule, h, rest);
      ParsePairRedacted(rule, h);
      OthersConcat(rule.code, ParsePair(h), Parse(rest));
      OthersConcat(rule.code, ParsePair(Redacted(rule, h)), Parse(Redacted(rule, rest)));
      HiddenConcat(rule, ParsePair(Redacted(rule, h)), Parse(Redacted(rule, rest)));
    } else {
      assert q[..i] == q;
      ParsePairRedacted(rule, q);
      RedactPieceSeparators(rule, q);
      ParseSplit(q, "");
      ParseSplit(Redacted(rule, q), "");
    }
  }

  // ---------------------------------------------------------------- the setup code

  predicate Plain(s: string) {
    s == "" || (('a' <= s[0] <= 'z' || s[0] == '_') && Plain(s[1..]))
  }

  lemma {:induction false} PlainWord(s: string)
    requires Plain(s)
    ensures Unescape(s) == Some(s)
    ensures Clean(AtEither, s) && Clean(AtEquals, s)
  {
    if s != "" {
      PlainWord(s[1..]);
      assert s == [s[0]] + s[1..];
      forall k: Cut, j | (k == AtEither || k == AtEquals) && 0 <= j < |s|
        ensures !Cuts(k, s[j])
      {
        if j > 0 {
          assert s[j] == s[1..][j - 1];
        }
      }
    }
  }

  lemma MaskIsValid(code: string, word: string)
    requires Plain(code) && Plain(word) && code != ""
    ensures ValidRule(Rule(code, code + ['='] + word)) && Unescape(Value(code + ['='] + word)) == Some(word)
  {
    PlainWord(code);
    PlainWord(word);
    FindAfter(AtEquals, code, '=', word);
    CleanConcat(AtEither, code, '=', word);
  }

  lemma PlainCode()
    ensures Plain("setup_code")
  {
    assert "setup_code"[5..] == "_code";
    assert Plain("_code");
  }

  lemma PlainRedacted()
    ensures Plain("redacted")
  {
    assert "redacted"[4..] == "cted";
    assert Plain("cted");
  }

  /** All of the above holds of the rule the server uses. */
  lemma SetupCodeRule()
    ensures ValidRule(SETUP_CODE) && Unescape(Value(SETUP_CODE.mask)) == Some("redacted")
  {
    PlainCode();
    PlainRedacted();
    MaskIsValid("setup_code", "redacted");
  }

  /** A pair keeps the spelling of its name exactly when it is not the code or spells it plainly. */
  lemma SpellingKeptIff(rule: Rule, pair: string)
    requires Name(rule.mask) == rule.code
    ensures Name(Masked(rule, pair)) == Name(pair) <==> (IsCode(rule, pair) ==> Name(pair) == rule.code)
  {
  }

  lemma {:induction false} UnescapeAfterPlain(a: string, b: string)
    requires Plain(a) && Unescape(b).Some?
    ensures Unescape(a + b) == Some(a + Unescape(b).value)
  {
    if a == "" {
      assert a + b == b && a + Unescape(b).value == Unescape(b).value;
    } else {
      var value := Unescape(b).value;
      UnescapeAfterPlain(a[1..], b);
      assert (a + b)[1..] == a[1..] + b && (a + b)[0] == a[0];
      assert a + value == [a[0]] + (a[1..] + value);
    }
  }

  /** A name of plain words with an encoded underscore between them. */
  function Encoded(a: string, b: string): string { a + (['%', '5', 'F'] + b) }

  lemma {:induction false} EncodedName(a: string, b: string, value: string)
    requires Plain(a) && Plain(b)
    ensures Name(Encoded(a, b) + ['='] + value) == Encoded(a, b)
    ensures Unescape(Encoded(a, b)) == Some(a + (['_'] + b))
  {
    PlainWord(a);
    PlainWord(b);
    var rest := ['%', '5', 'F'] + b;
    assert rest[3..] == b;
    assert Unescape(rest) == Some(['_'] + b);
    UnescapeAfterPlain(a, rest);
    assert Clean(AtEquals, Encoded(a, b));
    FindAfter(AtEquals, Encoded(a, b), '=', value);
  }

  lemma PlainHalves()
    ensures Plain("setup") && Plain("code") && "setup" + (['_'] + "code") == "setup_code"
  {
    assert "setup"[4..] == "p";
    assert Plain("p");
    assert "setup" + (['_'] + "code") == "setup_code";
  }

  /** The server's rule meets that requirement, and rewrites the spelling of setup%5Fcode. */
  lemma EncodedSpellingIsRewritten(value: string)
    ensures Name(SETUP_CODE.mask) == SETUP_CODE.code
    ensures var pair := Encoded("setup", "code") + ['='] + value;
            && Masked(SETUP_CODE, pair) == SETUP_CODE.mask
            && Name(Masked(SETUP_CODE, pair)) != Name(pair)
  {
    PlainCode();
    PlainWord("setup_code");
    FindAfter(AtEquals, "setup_code", '=', "redacted");
    PlainHalves();
    EncodedName("setup", "code", value);
    assert Encoded("setup", "code")[5] == '%' && "setup_code"[5] == '_';
  }

  // ---------------------------------------------------------------- every spelling of a name

  /** How one byte of a name can be written: as itself, as '+' for a space, or as '%' and two hex
      digits, each in either case. */
  datatype Glyph = Raw(c: char) | Plus | Percent(high: nat, low: nat, upperHigh: bool, upperLow: bool)

  function Digit(n: nat, upper: bool): char
    requires n < 16
  {
    (if upper then "0123456789ABCDEF" else "0123456789abcdef")[n]
  }

  ghost predicate WellFormed(g: Glyph) {
    match g
    case Raw(c) => c != '%' && c != '+'
    case Plus => true
    case Percent(high, low, _, _) => high < 16 && low < 16
  }

  ghost predicate AllWellFormed(gs: seq<Glyph>) { forall i :: 0 <= i < |gs| ==> WellFormed(gs[i]) }

  ghost function Written(g: Glyph): string
    requires WellFormed(g)
  {
    match g
    case Raw(c) => [c]
    case Plus => ['+']
    case Percent(high, low, upperHigh, upperLow) => ['%', Digit(high, upperHigh), Digit(low, upperLow)]
  }

  ghost function Meant(g: Glyph): char
    requires WellFormed(g)
  {
    match g
    case Raw(c) => c
    case Plus => ' '
    case Percent(high, low, _, _) => (16 * high + low) as char
  }

  ghost function Spelling(gs: seq<Glyph>): string
    requires AllWellFormed(gs)
  {
    if gs == [] then "" else Written(gs[0]) + Spelling(gs[1..])
  }

  ghost function Meaning(gs: seq<Glyph>): (m: string)
    requires AllWellFormed(gs)
    ensures |m| == |gs| && forall i :: 0 <= i < |gs| ==> m[i] == Meant(gs[i])
  {
    if gs == [] then "" else [Meant(gs[0])] + Meaning(gs[1..])
  }

  /** The hex digits are the sixteen digits in either case, and nothing else. */
  lemma DigitValue(n: nat, upper: bool)
    requires n < 16
    ensures HexValue(Digit(n, upper)) == Some(n)
  {
  }

  lemma DigitOf(c: char) returns (n: nat, upper: bool)
    requires HexValue(c).Some?
    ensures n < 16 && Digit(n, upper) == c
  {
    n, upper := HexValue(c).value, 'A' <= c <= 'F';
  }

  lemma UnescapeGlyph(g: Glyph, rest: string)
    requires WellFormed(g)
    ensures Unescape(Written(g) + rest) ==
              if Unescape(rest).None? then None else Some([Meant(g)] + Unescape(rest).value)
  {
    var s := Written(g) + rest;
    if g.Percent? {
      DigitValue(g.high, g.upperHigh);
      DigitValue(g.low, g.upperLow);
      assert s[3..] == rest;
    } else {
      assert s[1..] == rest;
    }
  }

  /** Every spelling decodes to what it means. */
  lemma {:induction false} SpellingDecodes(gs: seq<Glyph>)
    requires AllWellFormed(gs)
    ensures Unescape(Spelling(gs)) == Some(Meaning(gs))
  {
    if gs != [] {
      SpellingDecodes(gs[1..]);
      UnescapeGlyph(gs[0], Spelling(gs[1..]));
    }
  }

  lemma SpellingCons(g: Glyph, gs: seq<Glyph>)
    requires WellFormed(g) && AllWellFormed(gs)
    ensures AllWellFormed([g] + gs) && Spelling([g] + gs) == Written(g) + Spelling(gs)
  {
    assert ([g] + gs)[1..] == gs;
  }

  lemma FirstGlyph(s: string) returns (g: Glyph, rest: string)
    requires s != "" && Unescape(s).Some?
    ensures WellFormed(g) && s == Written(g) + rest && Unescape(rest).Some?
  {
    if s[0] == '%' {
      var high, upperHigh := DigitOf(s[1]);
      var low, upperLow := DigitOf(s[2]);
      g, rest := Percent(high, low, upperHigh, upperLow), s[3..];
      assert s == [s[0], s[1], s[2]] + s[3..];
    } else {
      g, rest := if s[0] == '+' then Plus else Raw(s[0]), s[1..];
      assert s == [s[0]] + s[1..];
    }
  }

  /** Whatever decodes is a spelling of what it decodes to; so a '%' that two hex digits do not
      follow makes a name undecodable. */
  lemma {:induction false} DecodableIsSpelling(s: string) returns (gs: seq<Glyph>)
    requires Unescape(s).Some?
    ensures AllWellFormed(gs) && Spelling(gs) == s && Some(Meaning(gs)) == Unescape(s)
    decreases |s|
  {
    gs := [];
    if s != "" {
      var g, rest := FirstGlyph(s);
      gs := DecodableIsSpelling(rest);
      SpellingCons(g, gs);
      gs := [g] + gs;
    }
    SpellingDecodes(gs);
  }

  lemma BadEscape(s: string)
    requires s != "" && s[0] == '%'
    requires || |s| < 3
             || (forall n: nat, u :: n < 16 ==> s[1] != Digit(n, u))
             || (forall n: nat, u :: n < 16 ==> s[2] != Digit(n, u))
    ensures Unescape(s) == None
  {
    if |s| >= 3 && HexValue(s[1]).Some? && HexValue(s[2]).Some? {
      var n1, u1 := DigitOf(s[1]);
      var n2, u2 := DigitOf(s[2]);
    }
  }

  /** A name is the code exactly when it is one of the code's spellings. */
  lemma IsCodeIffSpelling(rule: Rule, pair: string)
    ensures IsCode(rule, pair) <==>
              exists gs :: AllWellFormed(gs) && Spelling(gs) == Name(pair) && Meaning(gs) == rule.code
  {
    if IsCode(rule, pair) {
      var gs := DecodableIsSpelling(Name(pair));
    }
    if gs :| AllWellFormed(gs) && Spelling(gs) == Name(pair) && Meaning(gs) == rule.code {
      SpellingDecodes(gs);
    }
  }

  ghost predicate WordChar(c: char) { 'a' <= c <= 'z' || c == '_' }

  /** A spelling of a plain word holds no separator. */
  lemma {:induction false} SpellingClean(gs: seq<Glyph>)
    requires AllWellFormed(gs) && forall i :: 0 <= i < |gs| ==> WordChar(Meant(gs[i]))
    ensures Clean(AtEither, Spelling(gs)) && Clean(AtEquals, Spelling(gs))
  {
    if gs != [] {
      SpellingClean(gs[1..]);
      assert forall i :: 0 <= i < |gs[1..]| ==> gs[1..][i] == gs[i + 1];
      GlyphClean(gs[0]);
      CleanJoin(AtEither, Written(gs[0]), Spelling(gs[1..]));
      CleanJoin(AtEquals, Written(gs[0]), Spelling(gs[1..]));
    }
  }

  lemma GlyphClean(g: Glyph)
    requires WellFormed(g) && WordChar(Meant(g))
    ensures Clean(AtEither, Written(g)) && Clean(AtEquals, Written(g))
  {
    if g.Percent? {
      DigitValue(g.high, g.upperHigh);
      DigitValue(g.low, g.upperLow);
    }
  }

  lemma CleanJoin(k: Cut, a: string, b: string)
    requires Clean(k, a) && Clean(k, b)
    ensures Clean(k, a + b)
  {
  }

  lemma {:induction false} PlainChars(s: string)
    requires Plain(s)
    ensures forall i :: 0 <= i < |s| ==> WordChar(s[i])
  {
    if s != "" {
      PlainChars(s[1..]);
      assert forall i :: 1 <= i < |s| ==> s[i] == s[1..][i - 1];
    }
  }

  lemma NameIs(name: string, tail: string)
    requires Clean(AtEquals, name) && (tail == "" || tail[0] == '=')
    ensures Name(name + tail) == name
  {
    if tail == "" {
      FindIs(AtEquals, name, |name|);
      assert name + tail == name;
    } else {
      FindAfter(AtEquals, name, '=', tail[1..]);
      assert name + tail == name + ['='] + tail[1..];
    }
  }

  /** Every spelling of setup_code, each byte plain or percent-encoded in either case, is masked
      wherever it stands in a query, with or without a value. */
  lemma EverySpellingIsMasked(gs: seq<Glyph>, tail: string, q: string, i: nat)
    requires AllWellFormed(gs) && Meaning(gs) == "setup_code" && (tail == "" || tail[0] == '=')
    requires i < |Segments(q)| && Segments(q)[i].pair == Spelling(gs) + tail
    ensures Mentions(SETUP_CODE, q) && |Segments(Redacted(SETUP_CODE, q))| == |Segments(q)|
    ensures Segments(Redacted(SETUP_CODE, q))[i] == Segment("setup_code" + ['='] + "redacted", Segments(q)[i].sep)
  {
    PlainCode();
    PlainChars("setup_code");
    assert forall i :: 0 <= i < |gs| ==> Meant(gs[i]) == "setup_code"[i];
    SpellingClean(gs);
    SpellingDecodes(gs);
    NameIs(Spelling(gs), tail);
    assert IsCode(SETUP_CODE, Segments(q)[i].pair);
    FoundIffSomeSegmentIsCode(SETUP_CODE, q);
    SetupCodeRule();
    RedactionKeepsSegments(SETUP_CODE, q);
  }

  // ---------------------------------------------------------------- the logged request line

  datatype Url = Url(path: string, rawQuery: string, forceQuery: bool)

  function RequestUri(u: Url): string {
    u.path + (if u.forceQuery || u.rawQuery != "" then "?" + u.rawQuery else "")
  }

  /** loggedRequestURI: the request line with the query redacted, and the line as the client sent
      it when the query mentions no setup code. */
  method LoggedRequestUri(rule: Rule, u: Url) returns (uri: string)
    ensures uri == RequestUri(u.(rawQuery := Redacted(rule, u.rawQuery)))
    ensures !Mentions(rule, u.rawQuery) ==> uri == RequestUri(u)
    ensures Redacted(rule, u.rawQuery) != "" ==> uri == u.path + "?" + Redacted(rule, u.rawQuery)
    ensures u.rawQuery == "" ==> uri == u.path + (if u.forceQuery then "?" else "")
  {
    uri := RequestUri(u);
    ghost var shown := Redacted(rule, u.rawQuery);
    assert u.path + ("?" + shown) == u.path + "?" + shown;
    if u.rawQuery == "" {
      return;
    }
    var redactedQuery, found := RedactQuery(rule, u.rawQuery);
    if !found {
      return;
    }
    uri := RequestUri(u.(rawQuery := redactedQuery));
  }
}
