/** `escapeHtml` (server.js:241-248) and the newline rule applied to the
    message body (server.js:168), with the decoders that undo them. */
module Escape {
  import opened Text

  const Amp: string := "&amp;"
  const Lt: string := "&lt;"
  const Gt: string := "&gt;"
  const Quot: string := "&quot;"
  const Apos: string := "&#039;"
  const Br: string := "<br>"

  /** The five characters escapeHtml rewrites. */
  predicate IsSpecial(c: char)
  {
    c == '&' || c == '<' || c == '>' || c == '"' || c == '\''
  }

  /** escapeHtml exactly as written: five chained replaceAll calls, ampersand first. */
  function EscapeHtml(s: string): string
  {
    ReplaceChar(ReplaceChar(ReplaceChar(ReplaceChar(ReplaceChar(
      s, '&', Amp), '<', Lt), '>', Gt), '"', Quot), '\'', Apos)
  }

  /** Reference definition: each character on its own becomes its entity or itself. */
  function EscapeChar(c: char): string
  {
    match c
    case '&' => Amp
    case '<' => Lt
    case '>' => Gt
    case '"' => Quot
    case '\'' => Apos
    case _ => [c]
  }

  function Escaped(s: string): string
  {
    if s == [] then [] else EscapeChar(s[0]) + Escaped(s[1..])
  }

  /** True of a string that begins with one of the five entities escapeHtml emits. */
  predicate StartsWithEntity(t: string)
  {
    Amp <= t || Lt <= t || Gt <= t || Quot <= t || Apos <= t
  }

  /** The inverse of escapeHtml: each of the five entities back to its character,
      read left to right so that an entity is decoded once. */
  function Unescape(t: string): string
    decreases |t|
  {
    if t == [] then []
    else if Amp <= t then "&" + Unescape(t[|Amp|..])
    else if Lt <= t then "<" + Unescape(t[|Lt|..])
    else if Gt <= t then ">" + Unescape(t[|Gt|..])
    else if Quot <= t then "\"" + Unescape(t[|Quot|..])
    else if Apos <= t then "'" + Unescape(t[|Apos|..])
    else [t[0]] + Unescape(t[1..])
  }

  lemma EscapeHtmlAppend(a: string, b: string)
    ensures EscapeHtml(a + b) == EscapeHtml(a) + EscapeHtml(b)
  {
    var a1, b1 := ReplaceChar(a, '&', Amp), ReplaceChar(b, '&', Amp);
    ReplaceCharAppend(a, b, '&', Amp);
    var a2, b2 := ReplaceChar(a1, '<', Lt), ReplaceChar(b1, '<', Lt);
    ReplaceCharAppend(a1, b1, '<', Lt);
    var a3, b3 := ReplaceChar(a2, '>', Gt), ReplaceChar(b2, '>', Gt);
    ReplaceCharAppend(a2, b2, '>', Gt);
    var a4, b4 := ReplaceChar(a3, '"', Quot), ReplaceChar(b3, '"', Quot);
    ReplaceCharAppend(a3, b3, '"', Quot);
    ReplaceCharAppend(a4, b4, '\'', Apos);
  }

  /** Each later replaceAll leaves the entities produced by the earlier ones alone. */
  lemma EscapeHtmlChar(c: char)
    ensures EscapeHtml([c]) == EscapeChar(c)
  {
    if !IsSpecial(c) {
      ReplaceCharSingle(c, '&', Amp);
      ReplaceCharSingle(c, '<', Lt);
      ReplaceCharSingle(c, '>', Gt);
      ReplaceCharSingle(c, '"', Quot);
      ReplaceCharSingle(c, '\'', Apos);
    } else if c == '&' {
      EscapeHtmlAmp(c);
    } else if c == '<' {
      EscapeHtmlLt(c);
    } else if c == '>' {
      EscapeHtmlGt(c);
    } else if c == '"' {
      EscapeHtmlQuot(c);
    } else {
      EscapeHtmlApos(c);
    }
  }

  // In this lemma and the four after it the character arrives as a parameter
  // pinned by `requires` rather than as a literal, which keeps the verifier from
  // unfolding the replacements on the literal.
  lemma EscapeHtmlAmp(c: char)
    requires c == '&'
    ensures EscapeHtml([c]) == Amp
  {
    ReplaceCharSingle(c, '&', Amp);
    EntityKept(Amp);
  }

  /** The four replacements after the first leave text without their characters alone. */
  lemma EntityKept(e: string)
    requires '<' !in e && '>' !in e && '"' !in e && '\'' !in e
    ensures ReplaceChar(ReplaceChar(ReplaceChar(ReplaceChar(e, '<', Lt), '>', Gt), '"', Quot), '\'', Apos) == e
  {
    ReplaceCharAbsent(e, '<', Lt);
    ReplaceCharAbsent(e, '>', Gt);
    ReplaceCharAbsent(e, '"', Quot);
    ReplaceCharAbsent(e, '\'', Apos);
  }

  lemma EscapeHtmlLt(c: char)
    requires c == '<'
    ensures EscapeHtml([c]) == Lt
  {
    ReplaceCharSingle(c, '&', Amp);
    ReplaceCharSingle(c, '<', Lt);
    ReplaceCharAbsent(Lt, '>', Gt);
    ReplaceCharAbsent(Lt, '"', Quot);
    ReplaceCharAbsent(Lt, '\'', Apos);
  }

  lemma EscapeHtmlGt(c: char)
    requires c == '>'
    ensures EscapeHtml([c]) == Gt
  {
    ReplaceCharSingle(c, '&', Amp);
    ReplaceCharSingle(c, '<', Lt);
    ReplaceCharSingle(c, '>', Gt);
    ReplaceCharAbsent(Gt, '"', Quot);
    ReplaceCharAbsent(Gt, '\'', Apos);
  }

  lemma EscapeHtmlQuot(c: char)
    requires c == '"'
    ensures EscapeHtml([c]) == Quot
  {
    ReplaceCharSingle(c, '&', Amp);
    ReplaceCharSingle(c, '<', Lt);
    ReplaceCharSingle(c, '>', Gt);
    ReplaceCharSingle(c, '"', Quot);
    ReplaceCharAbsent(Quot, '\'', Apos);
  }

  lemma EscapeHtmlApos(c: char)
    requires c == '\''
    ensures EscapeHtml([c]) == Apos
  {
    ReplaceCharSingle(c, '&', Amp);
    ReplaceCharSingle(c, '<', Lt);
    ReplaceCharSingle(c, '>', Gt);
    ReplaceCharSingle(c, '"', Quot);
    ReplaceCharSingle(c, '\'', Apos);
  }

  /** Because `&` is replaced first, the chained replaceAll calls escape every
      character exactly once: no entity is escaped a second time. */
  lemma {:induction false} EscapeHtmlIsPerChar(s: string)
    ensures EscapeHtml(s) == Escaped(s)
  {
    if s != [] {
      assert s == [s[0]] + s[1..];
      EscapeHtmlAppend([s[0]], s[1..]);
      EscapeHtmlChar(s[0]);
      EscapeHtmlIsPerChar(s[1..]);
    }
  }

  /** Text without any of the five characters passes through unchanged. */
  lemma {:induction false} EscapeHtmlPlain(s: string)
    requires forall i :: 0 <= i < |s| ==> !IsSpecial(s[i])
    ensures EscapeHtml(s) == s
  {
    EscapedPlain(s);
    EscapeHtmlIsPerChar(s);
  }

  lemma {:induction false} EscapedPlain(s: string)
    requires forall i :: 0 <= i < |s| ==> !IsSpecial(s[i])
    ensures Escaped(s) == s
  {
    if s != [] {
      assert !IsSpecial(s[0]);
      EscapedPlain(s[1..]);
    }
  }

  lemma EscapeCharShape(c: char)
    ensures |EscapeChar(c)| >= 1
    ensures '<' !in EscapeChar(c) && '>' !in EscapeChar(c) && '"' !in EscapeChar(c) && '\'' !in EscapeChar(c)
    ensures forall j :: 0 < j < |EscapeChar(c)| ==> EscapeChar(c)[j] != '&'
    ensures EscapeChar(c)[0] == '&' ==> StartsWithEntity(EscapeChar(c))
  {
  }

  /** The output of escapeHtml holds no `<`, `>`, `"` or `'`, and every `&` in
      it opens one of the five entities. */
  lemma {:induction false} EscapeHtmlSafe(s: string)
    ensures '<' !in EscapeHtml(s) && '>' !in EscapeHtml(s)
    ensures '"' !in EscapeHtml(s) && '\'' !in EscapeHtml(s)
    ensures forall i :: 0 <= i < |EscapeHtml(s)| && EscapeHtml(s)[i] == '&' ==>
              StartsWithEntity(EscapeHtml(s)[i..])
  {
    EscapeHtmlIsPerChar(s);
    EscapedSafe(s);
  }

  lemma {:induction false} EscapedSafe(s: string)
    ensures '<' !in Escaped(s) && '>' !in Escaped(s) && '"' !in Escaped(s) && '\'' !in Escaped(s)
    ensures forall i :: 0 <= i < |Escaped(s)| && Escaped(s)[i] == '&' ==>
              StartsWithEntity(Escaped(s)[i..])
  {
    if s != [] {
      var e, rest := EscapeChar(s[0]), Escaped(s[1..]);
      EscapedSafe(s[1..]);
      EscapeCharShape(s[0]);
      assert Escaped(s) == e + rest;
      forall i | 0 <= i < |e + rest|
        ensures (e + rest)[i] == '&' ==> StartsWithEntity((e + rest)[i..])
      {
        if i < |e| {
          if e[i] == '&' {
            assert i == 0;
            assert e <= e + rest;
            assert (e + rest)[0..] == e + rest;
          }
        } else {
          assert (e + rest)[i..] == rest[i - |e|..];
        }
      }
    }
  }

  lemma UnescapeEscapeChar(c: char, u: string)
    ensures Unescape(EscapeChar(c) + u) == [c] + Unescape(u)
  {
    var t := EscapeChar(c) + u;
    if c == '&' {
      assert t[|Amp|..] == u;
    } else if c == '<' {
      assert t[1] == 'l' && !(Amp <= t);
      assert t[|Lt|..] == u;
    } else if c == '>' {
      assert t[1] == 'g' && !(Amp <= t) && !(Lt <= t);
      assert t[|Gt|..] == u;
    } else if c == '"' {
      assert t[1] == 'q' && !(Amp <= t) && !(Lt <= t) && !(Gt <= t);
      assert t[|Quot|..] == u;
    } else if c == '\'' {
      assert t[1] == '#' && !(Amp <= t) && !(Lt <= t) && !(Gt <= t) && !(Quot <= t);
      assert t[|Apos|..] == u;
    } else {
      assert t[0] == c && t[0] != '&';
      assert t[1..] == u;
    }
  }

  /** Round trip: decoding the five entities gives back the original text. */
  lemma {:induction false} UnescapeEscapeHtml(s: string)
    ensures Unescape(EscapeHtml(s)) == s
  {
    EscapeHtmlIsPerChar(s);
    UnescapeEscaped(s);
  }

  lemma {:induction false} UnescapeEscaped(s: string)
    ensures Unescape(Escaped(s)) == s
  {
    if s != [] {
      UnescapeEscapeChar(s[0], Escaped(s[1..]));
      UnescapeEscaped(s[1..]);
      assert [s[0]] + s[1..] == s;
    }
  }

  /** Distinct inputs never escape to the same text. */
  lemma EscapeHtmlInjective(a: string, b: string)
    requires EscapeHtml(a) == EscapeHtml(b)
    ensures a == b
  {
    UnescapeEscapeHtml(a);
    UnescapeEscapeHtml(b);
  }

  /** Text that is safe to place in HTML as escapeHtml leaves it: no `<`, `>`,
      `"` or `'`, and every `&` opens one of the five entities. */
  predicate SafeText(t: string)
  {
    && '<' !in t && '>' !in t && '"' !in t && '\'' !in t
    && forall i :: 0 <= i < |t| && t[i] == '&' ==> StartsWithEntity(t[i..])
  }

  lemma EscapeHtmlSafeText(s: string)
    ensures SafeText(EscapeHtml(s))
  {
    EscapeHtmlSafe(s);
  }

  /** escapeHtml is the only safe encoding: a safe text is the escaping of what
      it decodes to. */
  lemma SafeTextIsEscapeHtml(t: string)
    requires SafeText(t)
    ensures t == EscapeHtml(Unescape(t))
  {
    SafeTextIsEscaped(t);
    EscapeHtmlIsPerChar(Unescape(t));
  }

  lemma SafeTextSuffix(t: string, k: nat)
    requires SafeText(t) && k <= |t|
    ensures SafeText(t[k..])
  {
    forall i | 0 <= i < |t[k..]| && t[k..][i] == '&'
      ensures StartsWithEntity(t[k..][i..])
    {
      assert t[k..][i..] == t[k + i..];
    }
  }

  /** The width of the first piece the decoder reads from a non-empty text, and
      the character it reads it as. */
  function HeadWidth(t: string): (k: nat)
    requires t != []
    ensures 1 <= k <= |t|
  {
    if Amp <= t then |Amp| else if Lt <= t then |Lt| else if Gt <= t then |Gt|
    else if Quot <= t then |Quot| else if Apos <= t then |Apos| else 1
  }

  function HeadChar(t: string): char
    requires t != []
  {
    if Amp <= t then '&' else if Lt <= t then '<' else if Gt <= t then '>'
    else if Quot <= t then '"' else if Apos <= t then '\'' else t[0]
  }

  lemma UnescapeStep(t: string)
    requires t != []
    ensures Unescape(t) == [HeadChar(t)] + Unescape(t[HeadWidth(t)..])
  {
  }

  lemma SafeHeadEscapes(t: string)
    requires t != [] && SafeText(t)
    ensures EscapeChar(HeadChar(t)) == t[..HeadWidth(t)]
  {
    if !StartsWithEntity(t) {
      assert t[0..] == t;
      assert t[0] in t;
    }
  }

  lemma {:induction false} SafeTextIsEscaped(t: string)
    requires SafeText(t)
    ensures t == Escaped(Unescape(t))
    decreases |t|
  {
    if t != [] {
      var k, c := HeadWidth(t), HeadChar(t);
      SafeTextSuffix(t, k);
      SafeTextIsEscaped(t[k..]);
      UnescapeStep(t);
      SafeHeadEscapes(t);
      var u := Unescape(t);
      assert u[0] == c && u[1..] == Unescape(t[k..]);
      assert Escaped(u) == EscapeChar(c) + Escaped(Unescape(t[k..]));
      assert t == t[..k] + t[k..];
    }
  }

  /** Had `&` been replaced last, the entity produced for `<` would be escaped
      again: this is what the ampersand-first order prevents. */
  function EscapeAmpersandLast(s: string): string
  {
    ReplaceChar(ReplaceChar(ReplaceChar(ReplaceChar(ReplaceChar(
      s, '<', Lt), '>', Gt), '"', Quot), '\'', Apos), '&', Amp)
  }

  // `c` is pinned by `requires` rather than written as a literal, which keeps the
  // verifier from unfolding both replacement chains on the literal.
  lemma AmpersandLastDoubleEscapes(c: char)
    requires c == '<'
    ensures EscapeHtml([c]) == Lt
    ensures EscapeAmpersandLast([c]) == Amp + Lt[1..]
  {
    EscapeHtmlLt(c);
    ReplaceCharSingle(c, '<', Lt);
    var e1 := ReplaceChar([c], '<', Lt);
    var e2 := ReplaceChar(e1, '>', Gt);
    ReplaceCharAbsent(Lt, '>', Gt);
    var e3 := ReplaceChar(e2, '"', Quot);
    ReplaceCharAbsent(Lt, '"', Quot);
    var e4 := ReplaceChar(e3, '\'', Apos);
    ReplaceCharAbsent(Lt, '\'', Apos);
    assert e4 == Lt;
    AmpersandReescaped(Lt);
  }

  lemma AmpersandReescaped(e: string)
    requires e != [] && e[0] == '&' && '&' !in e[1..]
    ensures ReplaceChar(e, '&', Amp) == Amp + e[1..]
  {
    ReplaceCharAbsent(e[1..], '&', Amp);
  }

  /** `.replace(/\n/g, "<br>")`, applied to the escaped message only. */
  function NewlinesToBr(s: string): string
  {
    ReplaceChar(s, '\n', Br)
  }

  /** Inverse of the newline rule: each `<br>` back to a newline. */
  function BrToNewlines(t: string): string
    decreases |t|
  {
    if t == [] then []
    else if Br <= t then "\n" + BrToNewlines(t[|Br|..])
    else [t[0]] + BrToNewlines(t[1..])
  }

  lemma {:induction false} BrRoundTrip(s: string)
    requires '<' !in s
    ensures BrToNewlines(NewlinesToBr(s)) == s
  {
    if s != [] {
      var rest := NewlinesToBr(s[1..]);
      BrRoundTrip(s[1..]);
      if s[0] == '\n' {
        assert NewlinesToBr(s) == Br + rest;
        assert (Br + rest)[|Br|..] == rest;
      } else {
        assert NewlinesToBr(s) == [s[0]] + rest;
        assert !(Br <= [s[0]] + rest);
        assert ([s[0]] + rest)[1..] == rest;
      }
      assert s == [s[0]] + s[1..];
    }
  }

  /** The HTML form of the message: escaped first, then line breaks. */
  function MessageHtml(m: string): string
  {
    NewlinesToBr(EscapeHtml(m))
  }

  /** The message HTML holds no raw newline, and undoing the two steps in the
      opposite order restores the submitted message. */
  lemma MessageHtmlRoundTrip(m: string)
    ensures '\n' !in MessageHtml(m)
    ensures Unescape(BrToNewlines(MessageHtml(m))) == m
  {
    ReplaceCharRemoves(EscapeHtml(m), '\n', Br);
    EscapeHtmlSafe(m);
    BrRoundTrip(EscapeHtml(m));
    UnescapeEscapeHtml(m);
  }

  /** The message HTML is safe to place between tags: it holds no `"` or `'`,
      every `<` opens a `<br>`, every `>` closes one, and every `&` opens one of
      the five entities. */
  predicate SafeMessageHtml(b: string)
  {
    && '"' !in b && '\'' !in b
    && (forall i :: 0 <= i < |b| && b[i] == '<' ==> Br <= b[i..])
    && (forall i :: 0 <= i < |b| && b[i] == '>' ==> 3 <= i && b[i - 3..i + 1] == Br)
    && (forall i :: 0 <= i < |b| && b[i] == '&' ==> StartsWithEntity(b[i..]))
  }

  /** What one character of the message becomes in its HTML. */
  function MessagePiece(c: char): string
  {
    if c == '\n' then Br else EscapeChar(c)
  }

  function MessagePieces(s: string): string
  {
    if s == [] then [] else MessagePiece(s[0]) + MessagePieces(s[1..])
  }

  lemma {:induction false} MessageHtmlIsPieces(s: string)
    ensures NewlinesToBr(Escaped(s)) == MessagePieces(s)
  {
    if s != [] {
      var c := s[0];
      ReplaceCharAppend(EscapeChar(c), Escaped(s[1..]), '\n', Br);
      if c == '\n' {
        ReplaceCharSingle(c, '\n', Br);
      } else {
        ReplaceCharAbsent(EscapeChar(c), '\n', Br);
      }
      MessageHtmlIsPieces(s[1..]);
    }
  }

  lemma MessagePieceShape(c: char)
    ensures '"' !in MessagePiece(c) && '\'' !in MessagePiece(c)
    ensures forall j :: 0 <= j < |MessagePiece(c)| && MessagePiece(c)[j] == '<' ==> j == 0 && MessagePiece(c) == Br
    ensures forall j :: 0 <= j < |MessagePiece(c)| && MessagePiece(c)[j] == '>' ==> j == 3 && MessagePiece(c) == Br
    ensures forall j :: 0 <= j < |MessagePiece(c)| && MessagePiece(c)[j] == '&' ==> j == 0 && StartsWithEntity(MessagePiece(c))
  {
    EscapeCharShape(c);
  }

  lemma {:induction false} MessagePiecesSafe(s: string)
    ensures SafeMessageHtml(MessagePieces(s))
  {
    if s != [] {
      var p, rest := MessagePiece(s[0]), MessagePieces(s[1..]);
      MessagePiecesSafe(s[1..]);
      MessagePieceShape(s[0]);
      assert MessagePieces(s) == p + rest;
      AppendKeepsLt(p, rest);
      AppendKeepsGt(p, rest);
      AppendKeepsAmp(p, rest);
    }
  }

  lemma AppendKeepsLt(p: string, rest: string)
    requires forall j :: 0 <= j < |p| && p[j] == '<' ==> j == 0 && p == Br
    requires forall i :: 0 <= i < |rest| && rest[i] == '<' ==> Br <= rest[i..]
    ensures forall i :: 0 <= i < |p + rest| && (p + rest)[i] == '<' ==> Br <= (p + rest)[i..]
  {
    var b := p + rest;
    forall i | 0 <= i < |b| && b[i] == '<' ensures Br <= b[i..] {
      if i < |p| {
        assert b[i] == p[i] && b[i..] == b;
      } else {
        assert b[i] == rest[i - |p|] && b[i..] == rest[i - |p|..];
      }
    }
  }

  lemma AppendKeepsGt(p: string, rest: string)
    requires forall j :: 0 <= j < |p| && p[j] == '>' ==> j == 3 && p == Br
    requires forall i :: 0 <= i < |rest| && rest[i] == '>' ==> 3 <= i && rest[i - 3..i + 1] == Br
    ensures forall i :: 0 <= i < |p + rest| && (p + rest)[i] == '>' ==> 3 <= i && (p + rest)[i - 3..i + 1] == Br
  {
    var b := p + rest;
    forall i | 0 <= i < |b| && b[i] == '>' ensures 3 <= i && b[i - 3..i + 1] == Br {
      if i < |p| {
        assert b[i] == p[i];
        assert b[i - 3..i + 1] == p;
      } else {
        var k := i - |p|;
        assert b[i] == rest[k];
        assert b[i - 3..i + 1] == rest[k - 3..k + 1];
      }
    }
  }

  lemma AppendKeepsAmp(p: string, rest: string)
    requires forall j :: 0 <= j < |p| && p[j] == '&' ==> j == 0 && StartsWithEntity(p)
    requires forall i :: 0 <= i < |rest| && rest[i] == '&' ==> StartsWithEntity(rest[i..])
    ensures forall i :: 0 <= i < |p + rest| && (p + rest)[i] == '&' ==> StartsWithEntity((p + rest)[i..])
  {
    var b := p + rest;
    forall i | 0 <= i < |b| && b[i] == '&' ensures StartsWithEntity(b[i..]) {
      if i < |p| {
        assert b[i] == p[i] && b[i..] == b && p <= b;
      } else {
        assert b[i] == rest[i - |p|] && b[i..] == rest[i - |p|..];
      }
    }
  }

  lemma MessageHtmlSafe(m: string)
    ensures SafeMessageHtml(MessageHtml(m))
  {
    EscapeHtmlIsPerChar(m);
    MessageHtmlIsPieces(m);
    MessagePiecesSafe(m);
  }
}
