/** Removal of secrets from log lines: invite tickets, and long hexadecimal tokens. */
module Redaction {

  const TICKET_PREFIX: string := "dirhive1-"
  const MIN_REDACT_HEX_LEN: nat := 32
  const MARK: string := "<redacted>"

  predicate IsHexDigit(c: char) { '0' <= c <= '9' || 'a' <= c <= 'f' || 'A' <= c <= 'F' }

  /** The Unicode property White_Space. */
  predicate IsWhitespace(c: char) {
    '\U{9}' <= c <= '\U{D}' || c in {' ', '\U{85}', '\U{A0}', '\U{1680}'} || '\U{2000}' <= c <= '\U{200A}'
    || c in {'\U{2028}', '\U{2029}', '\U{202F}', '\U{205F}', '\U{3000}'}
  }

  predicate EndsToken(c: char) { IsWhitespace(c) || c == '"' || c == ',' }

  // ---------------------------------------------------------------- lines in pieces

  /** A line cut into text that stays and tokens that go. */
  datatype Piece = Kept(text: string) | Secret(text: string)

  function Source(pieces: seq<Piece>): string {
    if pieces == [] then "" else pieces[0].text + Source(pieces[1..])
  }

  function Rendered(pieces: seq<Piece>, mark: string): string {
    if pieces == [] then ""
    else (if pieces[0].Kept? then pieces[0].text else mark) + Rendered(pieces[1..], mark)
  }

  /** Where `pattern` first occurs in `s`, or |s| + 1 if it does not. */
  function Find(s: string, pattern: string): nat {
    if pattern <= s then 0 else if s == "" then 1 else 1 + Find(s[1..], pattern)
  }

  ghost predicate Occurs(s: string, pattern: string) {
    exists k :: 0 <= k <= |s| && pattern <= s[k..]
  }

  lemma {:induction false} FindFirst(s: string, pattern: string)
    ensures Find(s, pattern) <= |s| ==> pattern <= s[Find(s, pattern)..]
    ensures Find(s, pattern) > |s| ==> Find(s, pattern) == |s| + 1
    ensures forall k :: 0 <= k <= |s| && k < Find(s, pattern) ==> !(pattern <= s[k..])
  {
    if !(pattern <= s) && s != "" {
      FindFirst(s[1..], pattern);
      forall k | 0 <= k <= |s| && k < Find(s, pattern) ensures !(pattern <= s[k..]) {
        if k > 0 { assert s[k..] == s[1..][k - 1..]; }
      }
      if Find(s[1..], pattern) <= |s| - 1 { assert s[Find(s, pattern)..] == s[1..][Find(s[1..], pattern)..]; }
    } else if s == "" {
      assert forall k :: 0 <= k <= |s| ==> s[k..] == s;
    }
  }

  /** Length of the token at the start of `s`. */
  function TokenEnd(s: string): (n: nat)
    ensures n <= |s|
  {
    if s == "" || EndsToken(s[0]) then 0 else 1 + TokenEnd(s[1..])
  }

  /** The cut of a line at the first occurrence of `prefix`. */
  function Before(s: string, prefix: string): string
    requires Find(s, prefix) <= |s|
  {
    s[..Find(s, prefix)]
  }

  lemma PrefixOff(s: string, prefix: string)
    requires prefix <= s
    ensures s == prefix + s[|prefix|..]
  {
  }

  function After(s: string, prefix: string): (after: string)
    requires Find(s, prefix) <= |s|
    ensures s == Before(s, prefix) + (prefix + after)
  {
    FindFirst(s, prefix);
    PrefixOff(s[Find(s, prefix)..], prefix);
    assert s[Find(s, prefix)..][|prefix|..] == s[Find(s, prefix) + |prefix|..];
    s[Find(s, prefix) + |prefix|..]
  }

  /** A line cut at each occurrence of `prefix`; a token runs to the next delimiter. */
  function PatternPieces(s: string, prefix: string): seq<Piece>
    requires prefix != ""
    decreases |s|
  {
    if Find(s, prefix) > |s| then [Kept(s)]
    else
      var after := After(s, prefix);
      var end := TokenEnd(after);
      [Kept(Before(s, prefix))] + ([Secret(prefix + after[..end])] + PatternPieces(after[end..], prefix))
  }

  function HexRun(s: string): (n: nat)
    ensures n <= |s|
    ensures forall k :: 0 <= k < n ==> IsHexDigit(s[k])
    ensures n < |s| ==> !IsHexDigit(s[n])
  {
    if s == "" || !IsHexDigit(s[0]) then 0 else 1 + HexRun(s[1..])
  }

  /** A line cut into its maximal runs of hexadecimal digits and single other characters. */
  function HexPieces(s: string, min: nat): seq<Piece>
    decreases |s|
  {
    if s == "" then []
    else
      var n := HexRun(s);
      if n == 0 then [Kept(s[..1])] + HexPieces(s[1..], min)
      else [if n >= min then Secret(s[..n]) else Kept(s[..n])] + HexPieces(s[n..], min)
  }

  // ---------------------------------------------------------------- one piece at a time

  lemma Put(p: Piece, tail: seq<Piece>, mark: string)
    ensures Source([p] + tail) == p.text + Source(tail)
    ensures Rendered([p] + tail, mark) == (if p.Kept? then p.text else mark) + Rendered(tail, mark)
  {
    assert ([p] + tail)[1..] == tail;
  }

  lemma Assoc(a: string, b: string, c: string)
    ensures a + (b + c) == (a + b) + c
  {
  }

  function Rest(s: string, prefix: string): (rest: string)
    requires prefix != "" && Find(s, prefix) <= |s|
    ensures |rest| < |s|
  {
    After(s, prefix)[TokenEnd(After(s, prefix))..]
  }

  function Token(s: string, prefix: string): string
    requires Find(s, prefix) <= |s|
  {
    prefix + After(s, prefix)[..TokenEnd(After(s, prefix))]
  }

  lemma PatternStep(s: string, prefix: string, mark: string)
    requires prefix != "" && Find(s, prefix) <= |s|
    ensures PatternPieces(s, prefix) == [Kept(Before(s, prefix))] + ([Secret(Token(s, prefix))] + PatternPieces(Rest(s, prefix), prefix))
    ensures Rendered(PatternPieces(s, prefix), mark)
            == Before(s, prefix) + (mark + Rendered(PatternPieces(Rest(s, prefix), prefix), mark))
    ensures Source(PatternPieces(s, prefix)) == Before(s, prefix) + (Token(s, prefix) + Source(PatternPieces(Rest(s, prefix), prefix)))
  {
    var tail := PatternPieces(Rest(s, prefix), prefix);
    Put(Secret(Token(s, prefix)), tail, mark);
    Put(Kept(Before(s, prefix)), [Secret(Token(s, prefix))] + tail, mark);
  }

  lemma WholeLine(s: string, prefix: string)
    requires prefix != "" && Find(s, prefix) <= |s|
    ensures s == Before(s, prefix) + (Token(s, prefix) + Rest(s, prefix))
  {
    var after := After(s, prefix);
    var end := TokenEnd(after);
    assert after == after[..end] + after[end..];
    Assoc(prefix, after[..end], after[end..]);
  }

  lemma PatternEnd(s: string, prefix: string, mark: string)
    requires prefix != "" && Find(s, prefix) > |s|
    ensures Rendered(PatternPieces(s, prefix), mark) == s && Source(PatternPieces(s, prefix)) == s
  {
    Put(Kept(s), [], mark);
    assert [Kept(s)] + [] == [Kept(s)];
  }

  /** The second pass takes a maximal run or one other character at a time. */
  function Taken(s: string): (n: nat)
    requires s != ""
    ensures 0 < n <= |s|
  {
    if IsHexDigit(s[0]) then HexRun(s) else 1
  }

  function First(s: string, min: nat): Piece
    requires s != ""
  {
    if IsHexDigit(s[0]) && Taken(s) >= min then Secret(s[..Taken(s)]) else Kept(s[..Taken(s)])
  }

  lemma HexFirst(s: string, min: nat)
    requires s != "" && min > 0
    ensures HexPieces(s, min) == [First(s, min)] + HexPieces(s[Taken(s)..], min)
    ensures First(s, min).text == s[..Taken(s)]
  {
  }

  lemma HexStep(s: string, min: nat, mark: string)
    requires s != "" && min > 0
    ensures s == s[..Taken(s)] + s[Taken(s)..]
    ensures HexPieces(s, min) == [First(s, min)] + HexPieces(s[Taken(s)..], min)
    ensures Rendered(HexPieces(s, min), mark)
            == (if First(s, min).Kept? then s[..Taken(s)] else mark) + Rendered(HexPieces(s[Taken(s)..], min), mark)
    ensures Source(HexPieces(s, min)) == s[..Taken(s)] + Source(HexPieces(s[Taken(s)..], min))
  {
    HexFirst(s, min);
    Put(First(s, min), HexPieces(s[Taken(s)..], min), mark);
    TwoParts(s, Taken(s));
  }

  lemma TwoParts(s: string, n: nat)
    requires n <= |s|
    ensures s == s[..n] + s[n..]
  {
  }

  // ---------------------------------------------------------------- the loops

  method RedactPattern(s: string, prefix: string, mark: string := MARK) returns (out: string)
    requires prefix != ""
    ensures out == Rendered(PatternPieces(s, prefix), mark)
  {
    out := "";
    var rest := s;
    while Find(rest, prefix) <= |rest|
      invariant out + Rendered(PatternPieces(rest, prefix), mark) == Rendered(PatternPieces(s, prefix), mark)
      decreases |rest|
    {
      PatternStep(rest, prefix, mark);
      FindFirst(rest, prefix);
      var pos := Find(rest, prefix);
      var after := rest[pos + |prefix|..];
      ghost var tail := Rendered(PatternPieces(after[TokenEnd(after)..], prefix), mark);
      Assoc(out, rest[..pos], mark + tail);
      Assoc(out + rest[..pos], mark, tail);
      out := out + rest[..pos];
      out := out + mark;
      rest := after[TokenEnd(after)..];
    }
    PatternEnd(rest, prefix, mark);
    out := out + rest;
  }

  method RedactHexToken(s: string, min: nat, mark: string := MARK) returns (out: string)
    requires min > 0
    ensures out == Rendered(HexPieces(s, min), mark)
  {
    out := "";
    var buf := "";
    assert "" + s[0..] == s;
    for i := 0 to |s|
      invariant AllHex(buf)
      invariant out + Rendered(HexPieces(buf + s[i..], min), mark) == Rendered(HexPieces(s, min), mark)
    {
      var c := s[i];
      if IsHexDigit(c) {
        OneMoreDigit(buf, s, i);
        buf := buf + [c];
      } else {
        FlushRun(buf, s, i, min, mark);
        ghost var tail := Rendered(HexPieces(s[i + 1..], min), mark);
        Assoc(out, Flushed(buf, min, mark), [c] + tail);
        Assoc(out + Flushed(buf, min, mark), [c], tail);
        assert "" + s[i + 1..] == s[i + 1..];
        out := out + Flushed(buf, min, mark);
        out := out + [c];
        buf := "";
      }
    }
    LastRun(buf, s, min, mark);
    out := out + Flushed(buf, min, mark);
  }

  lemma OneMoreDigit(buf: string, s: string, i: nat)
    requires i < |s|
    ensures buf + s[i..] == (buf + [s[i]]) + s[i + 1..]
  {
  }

  /** The closure `flush`. */
  function Flushed(buf: string, min: nat, mark: string): string {
    if |buf| >= min then mark else buf
  }

  predicate AllHex(s: string) { forall k :: 0 <= k < |s| ==> IsHexDigit(s[k]) }

  lemma {:induction false} HexRunOf(buf: string, rest: string)
    requires AllHex(buf) && (rest == "" || !IsHexDigit(rest[0]))
    ensures HexRun(buf + rest) == |buf|
  {
    if buf == "" {
      assert buf + rest == rest;
    } else {
      assert (buf + rest)[1..] == buf[1..] + rest;
      HexRunOf(buf[1..], rest);
    }
  }

  lemma RunFirst(buf: string, rest: string, min: nat, mark: string)
    requires AllHex(buf) && (rest == "" || !IsHexDigit(rest[0])) && min > 0
    ensures Rendered(HexPieces(buf + rest, min), mark) == Flushed(buf, min, mark) + Rendered(HexPieces(rest, min), mark)
  {
    if buf == "" {
      assert buf + rest == rest;
    } else {
      HexRunOf(buf, rest);
      HexStep(buf + rest, min, mark);
      assert (buf + rest)[..|buf|] == buf && (buf + rest)[|buf|..] == rest;
    }
  }

  lemma FlushRun(buf: string, s: string, i: nat, min: nat, mark: string)
    requires AllHex(buf) && i < |s| && !IsHexDigit(s[i]) && min > 0
    ensures Rendered(HexPieces(buf + s[i..], min), mark)
            == Flushed(buf, min, mark) + ([s[i]] + Rendered(HexPieces(s[i + 1..], min), mark))
  {
    RunFirst(buf, s[i..], min, mark);
    HexStep(s[i..], min, mark);
    assert s[i..][..1] == [s[i]] && s[i..][1..] == s[i + 1..];
  }

  lemma LastRun(buf: string, s: string, min: nat, mark: string)
    requires AllHex(buf) && min > 0
    ensures Rendered(HexPieces(buf + s[|s|..], min), mark) == Flushed(buf, min, mark)
  {
    RunFirst(buf, s[|s|..], min, mark);
  }

  /** `redact_secrets`. */
  method RedactSecrets(line: string) returns (out: string)
    ensures out == Redacted(line)
  {
    var s := RedactPattern(line, TICKET_PREFIX);
    out := RedactHexToken(s, MIN_REDACT_HEX_LEN);
  }

  function Redacted(line: string): string {
    Rendered(HexPieces(Rendered(PatternPieces(line, TICKET_PREFIX), MARK), MIN_REDACT_HEX_LEN), MARK)
  }

  // ---------------------------------------------------------------- what goes and what stays

  /** The pieces of the first pass are the line, in order; what goes begins with the
      prefix and stops at a delimiter or the end; what stays has no ticket in it. */
  lemma {:induction false} PatternCut(s: string, prefix: string)
    requires prefix != ""
    ensures Source(PatternPieces(s, prefix)) == s
    ensures AllRightlyCut(PatternPieces(s, prefix), prefix)
    decreases |s|
  {
    FindFirst(s, prefix);
    if Find(s, prefix) > |s| {
      PatternEnd(s, prefix, "");
    } else {
      PatternStep(s, prefix, "");
      PatternCut(Rest(s, prefix), prefix);
      WholeLine(s, prefix);
      KeptClean(s, prefix);
      TokenRight(s, prefix);
      var tail := PatternPieces(Rest(s, prefix), prefix);
      CutCons(Secret(Token(s, prefix)), tail, prefix);
      CutCons(Kept(Before(s, prefix)), [Secret(Token(s, prefix))] + tail, prefix);
    }
  }

  lemma CutCons(piece: Piece, tail: seq<Piece>, prefix: string)
    requires RightlyCut(piece, prefix) && AllRightlyCut(tail, prefix)
    ensures AllRightlyCut([piece] + tail, prefix)
  {
  }

  ghost predicate AllRightlyCut(pieces: seq<Piece>, prefix: string) {
    forall k :: 0 <= k < |pieces| ==> RightlyCut(pieces[k], prefix)
  }

  lemma TokenRight(s: string, prefix: string)
    requires prefix != "" && Find(s, prefix) <= |s|
    ensures TokenOf(Token(s, prefix), prefix)
  {
    var after := After(s, prefix);
    TokenOfItself(after);
    assert Token(s, prefix)[|prefix|..] == after[..TokenEnd(after)];
  }

  predicate TokenOf(text: string, prefix: string) {
    prefix <= text && TokenEnd(text[|prefix|..]) == |text| - |prefix|
  }

  ghost predicate RightlyCut(piece: Piece, prefix: string) {
    if piece.Secret? then TokenOf(piece.text, prefix) else !Occurs(piece.text, prefix)
  }

  /** Before its first occurrence a pattern does not occur. */
  lemma KeptClean(s: string, pattern: string)
    requires Find(s, pattern) <= |s| && pattern != ""
    ensures !Occurs(Before(s, pattern), pattern)
  {
    FindFirst(s, pattern);
    var kept := Before(s, pattern);
    forall k | 0 <= k <= |kept| ensures !(pattern <= kept[k..]) {
      PrefixGoesOn(kept, s[|kept|..], k, pattern);
      assert s == kept + s[|kept|..];
    }
  }

  lemma PrefixGoesOn(a: string, b: string, k: nat, pattern: string)
    requires k <= |a|
    ensures pattern <= a[k..] ==> pattern <= (a + b)[k..]
  {
    assert (a + b)[k..] == a[k..] + b;
  }

  lemma {:induction false} TokenOfItself(s: string)
    ensures TokenEnd(s[..TokenEnd(s)]) == TokenEnd(s)
  {
    if s != "" && !EndsToken(s[0]) {
      TokenOfItself(s[1..]);
      assert s[..TokenEnd(s)][1..] == s[1..][..TokenEnd(s[1..])];
    }
  }

  predicate IsRun(piece: Piece) { piece.text != "" && AllHex(piece.text) }

  ghost predicate RunsCut(pieces: seq<Piece>, min: nat) {
    && (forall k :: 0 <= k < |pieces| ==> PieceCut(pieces[k], min))
    && (forall k :: 0 <= k < |pieces| - 1 ==> !(IsRun(pieces[k]) && IsRun(pieces[k + 1])))
  }

  predicate PieceCut(piece: Piece, min: nat) {
    if IsRun(piece) then piece.Secret? <==> |piece.text| >= min else piece.Kept? && |piece.text| == 1
  }

  /** The pieces of the second pass are its input, in order: single other characters
      and maximal hexadecimal runs; a run goes exactly if it has the minimal length. */
  lemma {:induction false} HexCut(s: string, min: nat)
    requires min > 0
    ensures Source(HexPieces(s, min)) == s && RunsCut(HexPieces(s, min), min)
    ensures s != "" ==> HexPieces(s, min) != [] && (IsRun(HexPieces(s, min)[0]) <==> IsHexDigit(s[0]))
    decreases |s|
  {
    if s != "" {
      var rest := s[Taken(s)..];
      HexStep(s, min, "");
      HexCut(rest, min);
      RunExactly(s, min);
      assert rest != "" && IsHexDigit(s[0]) ==> !IsHexDigit(rest[0]);
    }
  }

  lemma RunExactly(s: string, min: nat)
    requires s != "" && min > 0
    ensures IsRun(First(s, min)) <==> IsHexDigit(s[0])
    ensures PieceCut(First(s, min), min)
  {
    assert s[..Taken(s)][0] == s[0];
  }

  // ---------------------------------------------------------------- no secret is left

  /** A pattern without `c` does not occur across a `c`. */
  lemma OccursOnOneSide(a: string, c: char, b: string, pattern: string)
    requires c !in pattern
    ensures Occurs(a + [c] + b, pattern) ==> Occurs(a, pattern) || Occurs(b, pattern)
  {
    var s := a + [c] + b;
    if Occurs(s, pattern) {
      var k :| 0 <= k <= |s| && pattern <= s[k..];
      if k + |pattern| <= |a| {
        assert a[k..][..|pattern|] == s[k..][..|pattern|];
        assert pattern <= a[k..];
      } else if k > |a| {
        assert s[k..] == b[k - |a| - 1..];
      } else {
        Covers(s, k, pattern, |a|);
      }
    }
  }

  lemma Covers(s: string, k: nat, pattern: string, i: nat)
    requires k <= |s| && pattern <= s[k..] && k <= i < k + |pattern|
    ensures s[i] in pattern
  {
    assert s[k..][i - k] == pattern[i - k];
  }

  /** With `pattern` on neither side of the mark there is none at all. */
  ghost predicate Separates(mark: string, pattern: string) {
    forall a, b :: Occurs((a + mark) + b, pattern) ==> Occurs(a, pattern) || Occurs(b, pattern)
  }

  lemma MarkSeparates()
    ensures Separates(MARK, TICKET_PREFIX)
  {
    forall a: string, b: string | Occurs((a + MARK) + b, TICKET_PREFIX)
      ensures Occurs(a, TICKET_PREFIX) || Occurs(b, TICKET_PREFIX)
    {
      var inner: string := "redacted";
      assert (a + MARK) + b == a + ['<'] + (inner + ['>'] + b);
      OccursOnOneSide(a, '<', inner + ['>'] + b, TICKET_PREFIX);
      OccursOnOneSide(inner, '>', b, TICKET_PREFIX);
      assert !Occurs(inner, TICKET_PREFIX);
    }
  }

  lemma {:induction false} NoTicketAfterPattern(s: string, prefix: string, mark: string)
    requires prefix != "" && Separates(mark, prefix)
    ensures !Occurs(Rendered(PatternPieces(s, prefix), mark), prefix)
    decreases |s|
  {
    FindFirst(s, prefix);
    if Find(s, prefix) > |s| {
      PatternEnd(s, prefix, mark);
    } else {
      PatternStep(s, prefix, mark);
      NoTicketAfterPattern(Rest(s, prefix), prefix, mark);
      KeptClean(s, prefix);
      Assoc(Before(s, prefix), mark, Rendered(PatternPieces(Rest(s, prefix), prefix), mark));
    }
  }

  lemma OccursInPart(a: string, s: string, b: string, pattern: string)
    ensures Occurs(s, pattern) ==> Occurs((a + s) + b, pattern)
  {
    if Occurs(s, pattern) {
      var k :| 0 <= k <= |s| && pattern <= s[k..];
      assert ((a + s) + b)[|a| + k..] == s[k..] + b;
    }
  }

  /** The second pass brings no ticket back, whatever text `acc` is in front. */
  lemma {:induction false} NoTicketAfterHex(acc: string, s: string, min: nat, pattern: string, mark: string)
    requires min > 0 && !Occurs(acc + s, pattern) && Separates(mark, pattern)
    ensures !Occurs(acc + Rendered(HexPieces(s, min), mark), pattern)
    decreases |s|
  {
    if s != "" {
      var first, rest := s[..Taken(s)], s[Taken(s)..];
      var tail := Rendered(HexPieces(rest, min), mark);
      HexStep(s, min, mark);
      Assoc(acc, first, rest);
      if First(s, min).Kept? {
        NoTicketAfterHex(acc + first, rest, min, pattern, mark);
        Assoc(acc, first, tail);
      } else {
        PartsClean(acc, first, rest, pattern);
        NoTicketAfterHex("", rest, min, pattern, mark);
        assert "" + tail == tail;
        Assoc(acc, mark, tail);
      }
    }
  }

  lemma PartsClean(a: string, b: string, c: string, pattern: string)
    requires !Occurs((a + b) + c, pattern)
    ensures !Occurs(a, pattern) && !Occurs("" + c, pattern)
  {
    OccursInPart("", a, b + c, pattern);
    assert ("" + a) + (b + c) == (a + b) + c;
    assert "" + c == c;
    OccursInPart(a + b, c, "", pattern);
    assert ((a + b) + c) + "" == (a + b) + c;
  }

  /** `m` hexadecimal digits in a row, from `k` on. */
  predicate HexWindow(s: string, k: nat, m: nat) {
    k + m <= |s| && forall j :: k <= j < k + m ==> IsHexDigit(s[j])
  }

  ghost predicate NoHexRun(s: string, m: nat) {
    forall k: nat :: !HexWindow(s, k, m)
  }

  lemma BothSides(a: string, b: string, k: nat, m: nat)
    requires HexWindow(a + b, k, m) && k < |a| < k + m
    ensures b != "" && IsHexDigit(a[|a| - 1]) && IsHexDigit(b[0])
  {
    assert (a + b)[|a| - 1] == a[|a| - 1] && (a + b)[|a|] == b[0];
  }

  lemma NoRunAcross(a: string, b: string, m: nat)
    requires m > 0 && NoHexRun(a, m) && NoHexRun(b, m)
    requires a == "" || b == "" || !IsHexDigit(a[|a| - 1]) || !IsHexDigit(b[0])
    ensures NoHexRun(a + b, m)
  {
    var s := a + b;
    forall k: nat ensures !HexWindow(s, k, m) {
      if HexWindow(s, k, m) {
        if k + m <= |a| {
          forall j | k <= j < k + m ensures IsHexDigit(a[j]) { assert s[j] == a[j]; }
          assert HexWindow(a, k, m);
        } else if k >= |a| {
          forall j | k - |a| <= j < k - |a| + m ensures IsHexDigit(b[j]) { assert s[j + |a|] == b[j]; }
          assert HexWindow(b, k - |a|, m);
        } else {
          BothSides(a, b, k, m);
        }
      }
    }
  }

  lemma {:induction false} NoLongHexAfterHex(s: string, min: nat, mark: string)
    requires min > |mark| > 0 && !IsHexDigit(mark[|mark| - 1])
    ensures NoHexRun(Rendered(HexPieces(s, min), mark), min)
    ensures s != "" && !IsHexDigit(s[0]) ==>
              Rendered(HexPieces(s, min), mark) != "" && !IsHexDigit(Rendered(HexPieces(s, min), mark)[0])
    ensures s == "" ==> Rendered(HexPieces(s, min), mark) == ""
    decreases |s|
  {
    if s != "" {
      HexStep(s, min, mark);
      NoLongHexAfterHex(s[Taken(s)..], min, mark);
      var first := if First(s, min).Kept? then s[..Taken(s)] else mark;
      FirstShort(s, min, mark);
      NoRunAcross(first, Rendered(HexPieces(s[Taken(s)..], min), mark), min);
    }
  }

  lemma FirstShort(s: string, min: nat, mark: string)
    requires s != "" && min > |mark| > 0
    ensures NoHexRun(if First(s, min).Kept? then s[..Taken(s)] else mark, min)
  {
    var first := if First(s, min).Kept? then s[..Taken(s)] else mark;
    if |first| >= min {
      OneOtherChar(first, min);
    }
  }

  lemma OneOtherChar(first: string, min: nat)
    requires |first| == 1 && !IsHexDigit(first[0]) && min > 0
    ensures NoHexRun(first, min)
  {
    forall k: nat ensures !HexWindow(first, k, min) {
      if k == 0 { assert first[k] == first[0]; }
    }
  }

  /** A line without long runs is left as it is. */
  lemma {:induction false} HexIdentity(s: string, min: nat, mark: string)
    requires NoHexRun(s, min) && min > 0
    ensures Rendered(HexPieces(s, min), mark) == s
    decreases |s|
  {
    if s != "" {
      HexStep(s, min, mark);
      ShortFirst(s, min);
      SuffixNoRun(s, Taken(s), min);
      HexIdentity(s[Taken(s)..], min, mark);
    }
  }

  lemma SuffixNoRun(s: string, n: nat, min: nat)
    requires NoHexRun(s, min) && n <= |s|
    ensures NoHexRun(s[n..], min)
  {
    forall k: nat ensures !HexWindow(s[n..], k, min) {
      if HexWindow(s[n..], k, min) {
        forall j | n + k <= j < n + k + min ensures IsHexDigit(s[j]) { assert s[n..][j - n] == s[j]; }
        assert HexWindow(s, n + k, min);
      }
    }
  }

  lemma PatternIdentity(s: string)
    requires !Occurs(s, TICKET_PREFIX)
    ensures Rendered(PatternPieces(s, TICKET_PREFIX), MARK) == s
  {
    FindFirst(s, TICKET_PREFIX);
    PatternEnd(s, TICKET_PREFIX, MARK);
  }

  /** Main result: for every line, what is shown contains no ticket prefix and no 32
      hexadecimal digits in a row, also not across a mark; and redacting it again
      changes nothing. */
  lemma NothingSecretShown(line: string)
    ensures !Occurs(Redacted(line), TICKET_PREFIX)
    ensures NoHexRun(Redacted(line), MIN_REDACT_HEX_LEN)
    ensures Redacted(Redacted(line)) == Redacted(line)
  {
    var first := Rendered(PatternPieces(line, TICKET_PREFIX), MARK);
    MarkSeparates();
    NoTicketAfterPattern(line, TICKET_PREFIX, MARK);
    assert "" + first == first && "" + Redacted(line) == Redacted(line);
    NoTicketAfterHex("", first, MIN_REDACT_HEX_LEN, TICKET_PREFIX, MARK);
    NoLongHexAfterHex(first, MIN_REDACT_HEX_LEN, MARK);
    PatternIdentity(Redacted(line));
    HexIdentity(Redacted(line), MIN_REDACT_HEX_LEN, MARK);
  }

  /** Nothing harmless is hidden: a line is shown unchanged exactly when it has neither. */
  lemma HarmlessShown(line: string)
    ensures Redacted(line) == line <==> !Occurs(line, TICKET_PREFIX) && NoHexRun(line, MIN_REDACT_HEX_LEN)
  {
    NothingSecretShown(line);
    if !Occurs(line, TICKET_PREFIX) && NoHexRun(line, MIN_REDACT_HEX_LEN) {
      PatternIdentity(line);
      HexIdentity(line, MIN_REDACT_HEX_LEN, MARK);
    }
  }

  // ---------------------------------------------------------------- in letters

  const HEX_DIGITS: string := "0123456789abcdefABCDEF"

  /** What ends a token, in ASCII: blanks, the quote, the comma. */
  const DELIMITERS: string := "\t\n\U{B}\U{C}\r \","

  lemma HexDigitsAre(c: char)
    ensures IsHexDigit(c) <==> c in HEX_DIGITS
  {
  }

  lemma DelimitersAre(c: char)
    requires c as int < 128
    ensures EndsToken(c) <==> c in DELIMITERS
  {
  }

  /** Of 32 characters in a row that are shown, whatever the line, one at least is no
      hexadecimal digit; and the nine characters of the prefix are nowhere. */
  lemma ShownInLetters(line: string, k: nat)
    ensures k + 32 <= |Redacted(line)| ==> exists j :: k <= j < k + 32 && Redacted(line)[j] !in "0123456789abcdefABCDEF"
    ensures k + 9 <= |Redacted(line)| ==> Redacted(line)[k..k + 9] != "dirhive1-"
  {
    var shown := Redacted(line);
    NothingSecretShown(line);
    if k + 32 <= |shown| {
      assert !HexWindow(shown, k, 32);
      var j :| k <= j < k + 32 && !IsHexDigit(shown[j]);
      HexDigitsAre(shown[j]);
    }
    if k + 9 <= |shown| {
      assert !(TICKET_PREFIX <= shown[k..]);
      assert shown[k..][..9] == shown[k..k + 9];
    }
  }

  /** The prefix does not overlap itself, so the first one is found where it is. */
  lemma FoundAt(before: string, rest: string)
    requires !Occurs(before, TICKET_PREFIX)
    ensures Find(before + (TICKET_PREFIX + rest), TICKET_PREFIX) == |before|
  {
    var line := before + (TICKET_PREFIX + rest);
    FindFirst(line, TICKET_PREFIX);
    assert line[|before|..] == TICKET_PREFIX + rest;
    if Find(line, TICKET_PREFIX) < |before| {
      NotEarlier(before, TICKET_PREFIX + rest, Find(line, TICKET_PREFIX));
    }
  }

  lemma NotEarlier(before: string, rest: string, k: nat)
    requires k < |before| && rest != "" && rest[0] == TICKET_PREFIX[0] && TICKET_PREFIX <= (before + rest)[k..]
    ensures TICKET_PREFIX <= before[k..]
  {
    var found := (before + rest)[k..];
    assert found == before[k..] + rest;
    assert found[|before| - k] == rest[0];
    assert forall j :: 1 <= j < |TICKET_PREFIX| ==> TICKET_PREFIX[j] != TICKET_PREFIX[0];
  }

  lemma {:induction false} TokenUpTo(token: string, rest: string)
    requires forall k :: 0 <= k < |token| ==> !EndsToken(token[k])
    requires rest == "" || EndsToken(rest[0])
    ensures TokenEnd(token + rest) == |token|
  {
    if token == "" {
      assert token + rest == rest;
    } else {
      assert (token + rest)[1..] == token[1..] + rest;
      TokenUpTo(token[1..], rest);
    }
  }

  /** Just the ticket goes: with nothing else to hide in the line, the text before it
      and the text from the next blank, quote or comma on are shown as they are. */
  lemma OnlyTheTicketGoes(before: string, payload: string, rest: string)
    requires !Occurs(before, "dirhive1-") && !Occurs(rest, "dirhive1-") && NoHexRun(before, 32) && NoHexRun(rest, 32)
    requires forall k :: 0 <= k < |payload| ==> !EndsToken(payload[k])
    requires rest == "" || EndsToken(rest[0])
    ensures Redacted(before + ("dirhive1-" + (payload + rest))) == before + ("<redacted>" + rest)
  {
    var line := before + (TICKET_PREFIX + (payload + rest));
    FoundAt(before, payload + rest);
    TokenUpTo(payload, rest);
    assert Before(line, TICKET_PREFIX) == before;
    assert After(line, TICKET_PREFIX) == payload + rest;
    assert (payload + rest)[|payload|..] == rest;
    PatternStep(line, TICKET_PREFIX, MARK);
    PatternIdentity(rest);
    MarkShort(rest);
    NoRunAcross(before, MARK + rest, 32);
    HexIdentity(before + (MARK + rest), 32, MARK);
  }

  lemma MarkShort(rest: string)
    requires NoHexRun(rest, 32)
    ensures NoHexRun(MARK + rest, 32)
  {
    assert NoHexRun(MARK, 32);
    NoRunAcross(MARK, rest, 32);
  }

  /** Just the long token goes: a run of at least 32 hexadecimal digits between other
      characters, in a line with nothing else to hide. */
  lemma OnlyTheTokenGoes(before: string, token: string, rest: string)
    requires !Occurs(before + (token + rest), "dirhive1-") && NoHexRun(before, 32) && NoHexRun(rest, 32)
    requires |token| >= 32 && forall k :: 0 <= k < |token| ==> token[k] in "0123456789abcdefABCDEF"
    requires before == "" || before[|before| - 1] !in "0123456789abcdefABCDEF"
    requires rest == "" || rest[0] !in "0123456789abcdefABCDEF"
    ensures Redacted(before + (token + rest)) == before + ("<redacted>" + rest)
  {
    PatternIdentity(before + (token + rest));
    forall k | 0 <= k < |token| ensures IsHexDigit(token[k]) { HexDigitsAre(token[k]); }
    if before != "" { HexDigitsAre(before[|before| - 1]); }
    if rest != "" { HexDigitsAre(rest[0]); }
    ShortRunsFirst(before, token + rest, 32, MARK);
    RunFirst(token, rest, 32, MARK);
    HexIdentity(rest, 32, MARK);
  }

  /** What has no long run, and does not end in the middle of one, is shown first. */
  lemma {:induction false} ShortRunsFirst(before: string, rest: string, min: nat, mark: string)
    requires NoHexRun(before, min) && min > 0
    requires before == "" || rest == "" || !IsHexDigit(before[|before| - 1])
    ensures Rendered(HexPieces(before + rest, min), mark) == before + Rendered(HexPieces(rest, min), mark)
    decreases |before|
  {
    if before == "" {
      assert before + rest == rest;
    } else {
      var n := Taken(before);
      ShortRunStep(before, rest, min, mark);
      SuffixNoRun(before, n, min);
      ShortRunsFirst(before[n..], rest, min, mark);
      Assoc(before[..n], before[n..], Rendered(HexPieces(rest, min), mark));
      TwoParts(before, n);
    }
  }

  lemma ShortRunStep(before: string, rest: string, min: nat, mark: string)
    requires before != "" && NoHexRun(before, min) && min > 0
    requires rest == "" || !IsHexDigit(before[|before| - 1])
    ensures var n := Taken(before);
            Rendered(HexPieces(before + rest, min), mark) == before[..n] + Rendered(HexPieces(before[n..] + rest, min), mark)
  {
    SameTaken(before, rest);
    SplitLater(before, rest, Taken(before));
    HexStep(before + rest, min, mark);
    ShortFirst(before, min);
  }

  lemma SplitLater(a: string, b: string, n: nat)
    requires n <= |a|
    ensures (a + b)[..n] == a[..n] && (a + b)[n..] == a[n..] + b && (n > 0 ==> (a + b)[0] == a[0])
  {
  }

  lemma ShortFirst(s: string, min: nat)
    requires s != "" && NoHexRun(s, min)
    ensures IsHexDigit(s[0]) ==> Taken(s) < min
  {
    if IsHexDigit(s[0]) && Taken(s) >= min { assert HexWindow(s, 0, min); }
  }

  lemma SameTaken(before: string, rest: string)
    requires before != "" && (rest == "" || !IsHexDigit(before[|before| - 1]))
    ensures Taken(before + rest) == Taken(before)
  {
    if IsHexDigit(before[0]) {
      var n := HexRun(before);
      assert (before + rest) == before[..n] + (before[n..] + rest);
      assert n == |before| ==> rest == "";
      HexRunOf(before[..n], before[n..] + rest);
    }
  }
}
