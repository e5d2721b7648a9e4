/** The validation step of the `POST /api/contact` handler (server.js:148-163):
    required fields, the 5000-character limit and the link-count anti-spam rule. */
module Validation {
  import opened Base
  import opened Text

  const MaxMessageLength: nat := 5000
  const MaxLinks: nat := 3

  /** The request's JSON body as the handler destructures it; each field may be absent. */
  datatype Fields = Fields(name: Option<string>, email: Option<string>, message: Option<string>)

  /** A submission whose three fields passed validation. */
  datatype Submission = Submission(name: string, email: string, message: string)

  datatype Rejection = MissingField | MessageTooLong | LikelySpam

  datatype Verdict = Accepted(submission: Submission) | Rejected(reason: Rejection)

  /** `req.body || {}`: a request without a body has no fields. */
  function FieldsOf(body: Option<Fields>): Fields
  {
    if body.Some? then body.value else Fields(None, None, None)
  }

  /** `!field` for a string field: absent, or the empty string. */
  predicate Blank(f: Option<string>)
  {
    f.None? || f.value == []
  }

  /** Case folding of the regular expression's `i` flag (only ASCII letters fold to ASCII). */
  function Lower(c: char): char
  {
    if 'A' <= c <= 'Z' then (c as int + 32) as char else c
  }

  /** p, written in lower case, begins s when letters are compared without regard to case. */
  predicate PrefixIgnoringCase(p: string, s: string)
  {
    |p| <= |s| && forall i :: 0 <= i < |p| ==> Lower(s[i]) == p[i]
  }

  const Http: string := "http://"
  const Https: string := "https://"

  /** The upper-case form of a lower-case ASCII letter; other characters are their own. */
  function UpperOf(c: char): char
  {
    if 'a' <= c <= 'z' then (c as int - 32) as char else c
  }

  /** s begins with p written in any mixture of cases: each character is the
      pattern's own or its upper-case form. */
  predicate CaseVariantPrefix(p: string, s: string)
  {
    |p| <= |s| && forall i :: 0 <= i < |p| ==> s[i] == p[i] || s[i] == UpperOf(p[i])
  }

  /** For a pattern without upper-case letters, folding s to lower case and
      allowing either case in s accept the same prefixes. */
  lemma PrefixIgnoringCaseIff(p: string, s: string)
    requires forall i :: 0 <= i < |p| ==> !('A' <= p[i] <= 'Z')
    ensures PrefixIgnoringCase(p, s) <==> CaseVariantPrefix(p, s)
  {
    if |p| <= |s| {
      forall i | 0 <= i < |p|
        ensures Lower(s[i]) == p[i] <==> s[i] == p[i] || s[i] == UpperOf(p[i])
      {
      }
    }
  }

  /** Length of the match of /https?:\/\//i at the start of s (the optional `s` is
      greedy), or 0 when no link starts there. */
  function LinkAt(s: string): (k: nat)
    ensures k == 0 || k == |Http| || k == |Https|
    ensures k <= |s|
    ensures k == |Https| <==> CaseVariantPrefix(Https, s)
    ensures k == |Http| <==> !CaseVariantPrefix(Https, s) && CaseVariantPrefix(Http, s)
  {
    PrefixIgnoringCaseIff(Https, s);
    PrefixIgnoringCaseIff(Http, s);
    if PrefixIgnoringCase(Https, s) then |Https|
    else if PrefixIgnoringCase(Http, s) then |Http|
    else 0
  }

  /** `(message.match(/https?:\/\//gi) || []).length`: a global match resumes
      scanning right after each link it finds. */
  function LinkCount(s: string): nat
    decreases |s|
  {
    if s == [] then 0
    else if LinkAt(s) > 0 then 1 + LinkCount(s[LinkAt(s)..])
    else LinkCount(s[1..])
  }

  /** Reference count: the number of positions at which a link begins. */
  function LinkStarts(s: string): nat
    decreases |s|
  {
    if s == [] then 0 else (if LinkAt(s) > 0 then 1 else 0) + LinkStarts(s[1..])
  }

  /** The order of the checks: a missing field first, then the length, then the links. */
  function Validate(body: Option<Fields>): (v: Verdict)
    ensures var f := FieldsOf(body);
      v == Rejected(MissingField) <==> Blank(f.name) || Blank(f.email) || Blank(f.message)
    ensures var f := FieldsOf(body);
      v == Rejected(MessageTooLong) <==>
        !Blank(f.name) && !Blank(f.email) && !Blank(f.message) && |f.message.value| > MaxMessageLength
    ensures var f := FieldsOf(body);
      v == Rejected(LikelySpam) <==>
        !Blank(f.name) && !Blank(f.email) && !Blank(f.message) &&
        |f.message.value| <= MaxMessageLength && LinkCount(f.message.value) > MaxLinks
    ensures v.Accepted? ==>
      var f := FieldsOf(body);
      && f == Fields(Some(v.submission.name), Some(v.submission.email), Some(v.submission.message))
      && v.submission.name != [] && v.submission.email != [] && v.submission.message != []
      && |v.submission.message| <= MaxMessageLength
      && LinkCount(v.submission.message) <= MaxLinks
  {
    var f := FieldsOf(body);
    if Blank(f.name) || Blank(f.email) || Blank(f.message) then Rejected(MissingField)
    else if |f.message.value| > MaxMessageLength then Rejected(MessageTooLong)
    else if LinkCount(f.message.value) > MaxLinks then Rejected(LikelySpam)
    else Accepted(Submission(f.name.value, f.email.value, f.message.value))
  }

  /** The text of the 400 response for each rejection. */
  function RejectionText(r: Rejection): string
  {
    match r
    case MissingField => "Tous les champs sont requis."
    case MessageTooLong => "Message trop long."
    case LikelySpam => "Message non valide."
  }

  lemma RejectionTextsDistinct(a: Rejection, b: Rejection)
    ensures RejectionText(a) == RejectionText(b) <==> a == b
  {
    if a != b {
      assert RejectionText(a)[8] != RejectionText(b)[8] || |RejectionText(a)| != |RejectionText(b)|;
    }
  }

  /** No link can begin inside another one: after the first character, a link's
      characters never fold to `h`. */
  lemma NoLetterHInsideLink(s: string, m: int)
    requires LinkAt(s) > 0 && 1 <= m < LinkAt(s)
    ensures Lower(s[m]) != 'h'
  {
    if PrefixIgnoringCase(Https, s) {
      assert Lower(s[m]) == Https[m];
    } else {
      assert Lower(s[m]) == Http[m];
    }
  }

  lemma {:induction false} LinkStartsSkip(s: string, j: nat, k: nat)
    requires j <= k <= |s|
    requires forall m :: j <= m < k ==> Lower(s[m]) != 'h'
    ensures LinkStarts(s[j..]) == LinkStarts(s[k..])
    decreases k - j
  {
    if j < k {
      var t := s[j..];
      assert t[0] == s[j];
      assert !PrefixIgnoringCase(Https, t) && !PrefixIgnoringCase(Http, t);
      assert t[1..] == s[j + 1..];
      LinkStartsSkip(s, j + 1, k);
    }
  }

  /** Because links cannot overlap, counting the matches of the global regular
      expression is the same as counting where links begin. */
  lemma {:induction false} LinkCountIsLinkStarts(s: string)
    ensures LinkCount(s) == LinkStarts(s)
    decreases |s|
  {
    if s != [] {
      var k := LinkAt(s);
      if k > 0 {
        LinkCountIsLinkStarts(s[k..]);
        forall m | 1 <= m < k ensures Lower(s[m]) != 'h' {
          NoLetterHInsideLink(s, m);
        }
        LinkStartsSkip(s, 1, k);
        assert s[1..] == s[1..][0..];
      } else {
        LinkCountIsLinkStarts(s[1..]);
      }
    }
  }

  /** A link written in any mixture of cases counts once, whichever scheme it has. */
  lemma LinkCountAfterLink(v: string, rest: string)
    requires (|v| == |Https| && CaseVariantPrefix(Https, v)) || (|v| == |Http| && CaseVariantPrefix(Http, v))
    ensures LinkCount(v + rest) == 1 + LinkCount(rest)
  {
    var s := v + rest;
    if |v| == |Http| {
      assert s[4] == v[4] && (v[4] == Http[4] || v[4] == UpperOf(Http[4]));
      assert !CaseVariantPrefix(Https, s);
    }
    assert CaseVariantPrefix(Https, v) ==> CaseVariantPrefix(Https, s);
    assert CaseVariantPrefix(Http, v) ==> CaseVariantPrefix(Http, s);
    assert LinkAt(s) == |v|;
    assert s[|v|..] == rest;
  }

  /** `HTTPS://` and `Http://` are each one link. The strings arrive as parameters
      pinned by `requires`, which keeps the verifier from unfolding `LinkCount` on
      the literals. */
  lemma MixedCaseLinks(a: string, b: string)
    requires a == "HTTPS://" && b == "Http://"
    ensures LinkCount(a) == 1 && LinkCount(b) == 1
  {
    assert CaseVariantPrefix(Https, a);
    LinkCountAfterLink(a, []);
    assert a + [] == a;
    assert CaseVariantPrefix(Http, b);
    LinkCountAfterLink(b, []);
    assert b + [] == b;
  }

  /** n plain `http://` links count as n. */
  lemma {:induction false} LinkCountRepeat(n: nat)
    ensures LinkCount(Repeat(Http, n)) == n
  {
    if n > 0 {
      var rest := Repeat(Http, n - 1);
      assert Repeat(Http, n) == Http + rest;
      assert CaseVariantPrefix(Http, Http);
      LinkCountAfterLink(Http, rest);
      LinkCountRepeat(n - 1);
    }
  }

  /** A text in which no character folds to `h` holds no link. */
  lemma {:induction false} LinkCountWithoutH(s: string)
    requires forall i :: 0 <= i < |s| ==> Lower(s[i]) != 'h'
    ensures LinkCount(s) == 0
  {
    if s != [] {
      assert Lower(s[0]) != Http[0];
      LinkCountWithoutH(s[1..]);
    }
  }

  /** A message of n letters `a` holds no link. */
  lemma {:induction false} LinkCountLetters(n: nat)
    ensures LinkCount(Repeat("a", n)) == 0
  {
    if n > 0 {
      var s := Repeat("a", n);
      assert s[0] == 'a' && Lower(s[0]) != 'h';
      assert s[1..] == Repeat("a", n - 1);
      LinkCountLetters(n - 1);
    }
  }

  /** The link boundary: three links pass and a fourth makes the message spam. */
  lemma LinkBoundary(name: string, email: string, n: nat)
    requires name != [] && email != [] && n == MaxLinks
    ensures Validate(Some(Fields(Some(name), Some(email), Some(Repeat(Http, n))))).Accepted?
    ensures Validate(Some(Fields(Some(name), Some(email), Some(Repeat(Http, n + 1))))) == Rejected(LikelySpam)
  {
    LinkCountRepeat(n);
    LinkCountRepeat(n + 1);
    RepeatLength(Http, n);
    RepeatLength(Http, n + 1);
  }

  /** The length boundary: exactly 5000 characters pass and 5001 are too long. */
  lemma LengthBoundary(name: string, email: string, n: nat)
    requires name != [] && email != [] && n == MaxMessageLength
    ensures Validate(Some(Fields(Some(name), Some(email), Some(Repeat("a", n))))).Accepted?
    ensures Validate(Some(Fields(Some(name), Some(email), Some(Repeat("a", n + 1))))) == Rejected(MessageTooLong)
  {
    LinkCountLetters(n);
    RepeatLength("a", n);
    RepeatLength("a", n + 1);
  }
}
