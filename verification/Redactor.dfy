/**
 * Redaction by repeated replacement: when it is complete, exactly.
 *
 * Texts are sequences of bytes written as characters.
 */
module Redactor {
  import opened Wrappers
  import opened Texts
  import opened FileTree

  function Redacted(): string { "[redacted]" }

  /** What stands between the brackets. */
  function Word(): string { "redacted" }

  const MinLength: nat := 6

  predicate Contains(text: string, part: string) {
    exists i :: 0 <= i <= |text| && part <= text[i..]
  }

  predicate BracketFree(s: string) {
    '[' !in s && ']' !in s
  }

  // ---------------------------------------------------------------- encodings

  predicate Unreserved(c: char) {
    'A' <= c <= 'Z' || 'a' <= c <= 'z' || '0' <= c <= '9' || c == '-' || c == '.' || c == '_' || c == '~'
  }

  function HexDigit(n: nat): (c: char)
    requires n < 16
    ensures Unreserved(c)
  {
    if n < 10 then '0' + n as char else 'A' + (n - 10) as char
  }

  function EncodeChar(c: char): string {
    if Unreserved(c) then [c]
    else ['%', HexDigit((c as nat / 16) % 16), HexDigit(c as nat % 16)]
  }

  function PercentEncode(s: string): string {
    if s == "" then "" else EncodeChar(s[0]) + PercentEncode(s[1..])
  }

  /** The encoding is never shorter, never holds a bracket, and is the text itself exactly when nothing is escaped. */
  lemma {:induction false} EncodingShape(s: string)
    ensures |s| <= |PercentEncode(s)| && BracketFree(PercentEncode(s))
    ensures PercentEncode(s) == s <==> forall c :: c in s ==> Unreserved(c)
    ensures (exists c :: c in s && !Unreserved(c)) ==> '%' in PercentEncode(s)
  {
    if s != "" {
      EncodingShape(s[1..]);
      assert s == [s[0]] + s[1..];
      assert forall c :: c in s <==> c == s[0] || c in s[1..];
      var rest := PercentEncode(s[1..]);
      if Unreserved(s[0]) {
        assert PercentEncode(s)[0] == s[0] && PercentEncode(s)[1..] == rest;
      } else {
        assert PercentEncode(s)[0] == '%';
      }
    }
  }

  function HexValue(c: char): nat {
    if '0' <= c <= '9' then c as nat - '0' as nat else if 'A' <= c <= 'F' then c as nat - 'A' as nat + 10 else 0
  }

  /** What a reader of URLs makes of a percent-encoded text. */
  function PercentDecode(s: string): string {
    if s == "" then ""
    else if s[0] == '%' && |s| >= 3 then [((HexValue(s[1]) * 16 + HexValue(s[2])) % 256) as char] + PercentDecode(s[3..])
    else [s[0]] + PercentDecode(s[1..])
  }

  lemma HexReads(c: char)
    requires c as int < 256
    ensures HexValue(HexDigit(c as nat / 16 % 16)) * 16 + HexValue(HexDigit(c as nat % 16)) == c as nat
  {
  }

  /** The encoding of a text of bytes is one that URL readers decode to it. */
  lemma {:induction false} DecodesBack(s: string)
    requires forall k :: 0 <= k < |s| ==> s[k] as int < 256
    ensures PercentDecode(PercentEncode(s)) == s
  {
    if s != "" {
      hide HexDigit, HexValue;
      DecodesBack(s[1..]);
      HexReads(s[0]);
      var head, rest := EncodeChar(s[0]), PercentEncode(s[1..]);
      assert (head + rest)[|head|..] == rest;
      assert PercentDecode(head + rest) == [s[0]] + PercentDecode(rest);
      assert s == [s[0]] + s[1..];
    }
  }

  /** What stands unescaped is exactly the unreserved set of section 2.3 of RFC 3986. */
  lemma UnreservedExactly(c: char)
    ensures Unreserved(c) <==>
            || c in "ABCDEFGHIJKLMNOPQRSTUVWXYZ" || c in "abcdefghijklmnopqrstuvwxyz" || c in "0123456789"
            || c in "-._~"
  {
    UpperLetters(c);
    LowerLetters(c);
    DigitCharacters(c);
  }

  /** The forms a secret is searched in, smaller one first. */
  function Forms(secret: string): (forms: seq<string>)
    ensures forall f :: f in forms <==> f == secret || f == PercentEncode(secret)
    ensures forall i, j :: 0 <= i < j < |forms| ==> Less(forms[i], forms[j])
  {
    LessStrict(secret, PercentEncode(secret));
    var encoded := PercentEncode(secret);
    if encoded == secret then [secret]
    else if Less(secret, encoded) then [secret, encoded]
    else [encoded, secret]
  }

  function AllForms(secrets: seq<string>): seq<string> {
    if secrets == [] then [] else AllForms(secrets[..|secrets| - 1]) + Forms(secrets[|secrets| - 1])
  }

  // -------------------------------------------------------------- replacement

  /** Left to right, without overlaps. */
  function Replace(text: string, form: string): string
    requires form != ""
  {
    if text == "" then ""
    else if form <= text then Redacted() + Replace(text[|form|..], form)
    else [text[0]] + Replace(text[1..], form)
  }

  predicate NonEmpty(forms: seq<string>) {
    forall k :: 0 <= k < |forms| ==> forms[k] != ""
  }

  function RedactForms(text: string, forms: seq<string>): string
    requires NonEmpty(forms)
  {
    if forms == [] then text else Replace(RedactForms(text, forms[..|forms| - 1]), forms[|forms| - 1])
  }

  ghost predicate Leaks(text: string, secrets: seq<string>) {
    exists f :: f in AllForms(secrets) && Contains(text, f)
  }

  lemma RedactedShape()
    ensures |Redacted()| == 10 && Redacted()[0] == '[' && Redacted()[9] == ']' && Redacted()[1..9] == Word()
    ensures BracketFree(Word())
  {
  }

  /** One of the two starts the other. */
  predicate Comparable(a: string, b: string) {
    a <= b || b <= a
  }

  /** No part of the text, up to its end, could be the start of a mark, or hold one. */
  predicate Free(part: string) {
    forall i :: 0 <= i < |part| ==> !Comparable(part[i..], Redacted())
  }

  /** The text and the mark do not overlap: neither runs into the other, and neither holds the other. */
  predicate Apart(part: string) {
    Free(part) && forall i :: 0 <= i < |Redacted()| ==> !Comparable(part, Redacted()[i..])
  }

  lemma StartsJoined(part: string, a: string, b: string)
    requires part <= a + b
    ensures Comparable(part, a)
  {
    if |part| <= |a| {
      assert part == (a + b)[..|part|] == a[..|part|];
    } else {
      assert a == (a + b)[..|a|] == part[..|a|];
    }
  }

  /** What a redacted text starts with, marks aside, the text started with before. */
  lemma {:induction false} StartsBefore(text: string, form: string, part: string)
    requires form != "" && Free(part) && part <= Replace(text, form)
    ensures part <= text && (part != "" ==> !(form <= text))
  {
    RedactedShape();
    hide Redacted, Word, Comparable;
    if part != "" && text != "" {
      assert part[0..] == part;
      if form <= text {
        StartsJoined(part, Redacted(), Replace(text[|form|..], form));
        assert false;
      }
      assert part[1..] <= Replace(text[1..], form);
      assert forall i :: 0 <= i < |part[1..]| ==> part[1..][i..] == part[i + 1..];
      StartsBefore(text[1..], form, part[1..]);
    }
  }

  lemma InsideMark(rest: string, part: string, i: nat)
    requires BracketFree(part) && part != "" && i < 10 && part <= (Redacted() + rest)[i..]
    ensures Contains(Word(), part)
  {
    RedactedShape();
    var all := Redacted() + rest;
    hide Redacted, Word;
    assert all[0] == '[' && all[9] == ']';
    assert forall k :: 0 <= k < |part| ==> part[k] in part && part[k] == all[i..][k] == all[i + k];
    assert i >= 1;
    assert all[i..][9 - i] == ']';
    assert i + |part| <= 9;
    assert all[1..9] == Word();
    assert Word()[i - 1..][..|part|] == part;
    assert part <= Word()[i - 1..];
  }

  lemma MarkEndsInBracket(part: string, i: nat)
    requires i < 10 && Redacted()[i..] <= part
    ensures ']' in part
  {
    RedactedShape();
    assert part[9 - i] == Redacted()[i..][9 - i] == ']';
  }

  /** A text without brackets that lies outside the word does not overlap the mark. */
  lemma BracketFreeApart(part: string)
    requires BracketFree(part) && part != "" && !Contains(Word(), part)
    ensures Apart(part)
  {
    RedactedShape();
    var mark := Redacted();
    hide Redacted, Word, Contains;
    forall i | 0 <= i < |part| ensures !Comparable(part[i..], mark) {
      assert part[i..][0] == part[i] && part[i] in part;
    }
    forall i | 0 <= i < |mark| ensures !Comparable(part, mark[i..]) {
      if part <= mark[i..] {
        assert mark + "" == mark;
        InsideMark("", part, i);
      }
      if mark[i..] <= part {
        MarkEndsInBracket(part, i);
      }
    }
  }

  lemma ApartMissesMark(rest: string, part: string, i: nat)
    requires Apart(part) && i < 10
    ensures !(part <= (Redacted() + rest)[i..])
  {
    RedactedShape();
    var mark := Redacted();
    hide Redacted, Comparable;
    if part <= (mark + rest)[i..] {
      assert (mark + rest)[i..] == mark[i..] + rest;
      StartsJoined(part, mark[i..], rest);
      assert false;
    }
  }

  /** Replacing one form never brings another back, and leaves none of its own. */
  lemma {:induction false} ReplaceAddsNothing(text: string, form: string, part: string)
    requires form != "" && part != "" && Apart(part) && Contains(Replace(text, form), part)
    ensures Contains(text, part) && part != form
  {
    RedactedShape();
    var after := Replace(text, form);
    var i :| 0 <= i <= |after| && part <= after[i..];
    hide Redacted, Word, Comparable, Apart, Free;
    if text != "" {
      if form <= text {
        var rest := Replace(text[|form|..], form);
        if i < 10 {
          ApartMissesMark(rest, part, i);
        } else {
          assert after[i..] == rest[i - 10..];
          ReplaceAddsNothing(text[|form|..], form, part);
          ContainsLater(text, |form|, part);
        }
      } else if i == 0 {
        assert after[0..] == after;
        ApartIsFree(part);
        StartsBefore(text, form, part);
        assert text[0..] == text;
      } else {
        assert after[i..] == Replace(text[1..], form)[i - 1..];
        ReplaceAddsNothing(text[1..], form, part);
        ContainsLater(text, 1, part);
      }
    }
  }

  lemma ApartIsFree(part: string)
    requires Apart(part)
    ensures Free(part)
  {
  }

  lemma ContainsLater(text: string, from: nat, part: string)
    requires from <= |text| && Contains(text[from..], part)
    ensures Contains(text, part)
  {
    var i :| 0 <= i <= |text[from..]| && part <= text[from..][i..];
    assert text[from..][i..] == text[from + i..];
  }

  /** No form holds a bracket or lies inside the word the mark spells. */
  ghost predicate Harmless(forms: seq<string>) {
    forall k :: 0 <= k < |forms| ==> BracketFree(forms[k]) && !Contains(Word(), forms[k])
  }

  ghost predicate AllApart(forms: seq<string>) {
    forall k :: 0 <= k < |forms| ==> Apart(forms[k])
  }

  /** No matter what is replaced later, a form once redacted stays gone. */
  lemma {:induction false} FormsStayGone(text: string, forms: seq<string>, form: string)
    requires NonEmpty(forms) && AllApart(forms) && form in forms
    ensures !Contains(RedactForms(text, forms), form)
    decreases |forms|
  {
    hide Contains, Apart, Replace;
    var last := forms[|forms| - 1];
    var before := RedactForms(text, forms[..|forms| - 1]);
    if Contains(Replace(before, last), form) {
      ReplaceAddsNothing(before, last, form);
      FormsStayGone(text, forms[..|forms| - 1], form);
    }
  }

  // --------------------------------------------------------------- the redactor

  /** Longest first, ties in text order. */
  predicate Before(a: string, b: string) {
    |a| > |b| || (|a| == |b| && Less(a, b))
  }

  ghost predicate LongestFirst(secrets: seq<string>) {
    forall i, j :: 0 <= i < j < |secrets| ==> Before(secrets[i], secrets[j])
  }

  function InsertSorted(secrets: seq<string>, secret: string): (r: seq<string>)
    ensures forall s :: s in r <==> s in secrets || s == secret
  {
    if secrets == [] then [secret]
    else if Before(secret, secrets[0]) then [secret] + secrets
    else
      assert secrets == [secrets[0]] + secrets[1..];
      [secrets[0]] + InsertSorted(secrets[1..], secret)
  }

  lemma {:induction false} InsertKeepsOrder(secrets: seq<string>, secret: string)
    requires LongestFirst(secrets) && secret !in secrets
    ensures LongestFirst(InsertSorted(secrets, secret))
  {
    if secrets != [] {
      LessStrict(secret, secrets[0]);
      if Before(secret, secrets[0]) {
        forall k | 0 <= k < |secrets| ensures Before(secret, secrets[k]) {
          if k > 0 {
            BeforeTransitive(secret, secrets[0], secrets[k]);
          }
        }
      } else {
        InsertKeepsOrder(secrets[1..], secret);
        var rest := InsertSorted(secrets[1..], secret);
        forall k | 0 <= k < |rest| ensures Before(secrets[0], rest[k]) {
          assert rest[k] in rest;
          assert forall s :: s in secrets[1..] ==> Before(secrets[0], s);
        }
      }
    }
  }

  lemma BeforeTransitive(a: string, b: string, c: string)
    requires Before(a, b) && Before(b, c)
    ensures Before(a, c)
  {
    if |a| == |b| == |c| {
      LessTransitive(a, b, c);
    }
  }

  ghost predicate WellKept(secrets: seq<string>) {
    LongestFirst(secrets) && forall k :: 0 <= k < |secrets| ==> |secrets[k]| >= MinLength
  }

  lemma LongestFirstDistinct(secrets: seq<string>, i: nat, j: nat)
    requires LongestFirst(secrets) && i < j < |secrets|
    ensures secrets[i] != secrets[j]
  {
    LessStrict(secrets[i], secrets[j]);
  }

  class Redactor {
    var secrets: seq<string>

    ghost predicate Valid()
      reads this
    {
      WellKept(secrets)
    }

    constructor ()
      ensures Valid() && secrets == []
    {
      secrets := [];
    }

    /** Short values and known ones are ignored; the list stays duplicate-free and longest-first. */
    method Insert(secret: string)
      requires Valid()
      modifies this
      ensures Valid()
      ensures forall s :: s in secrets <==> s in old(secrets) || (s == secret && |secret| >= MinLength)
    {
      if |secret| < MinLength || secret in secrets { return; }
      InsertKeepsOrder(secrets, secret);
      var sorted := InsertSorted(secrets, secret);
      forall k | 0 <= k < |sorted| ensures |sorted[k]| >= MinLength {
        assert sorted[k] in sorted;
      }
      secrets := sorted;
    }

    method Redact(text: string) returns (out: string)
      requires Valid()
      ensures NonEmpty(AllForms(secrets)) && out == RedactForms(text, AllForms(secrets))
    {
      hide WellKept, AllForms, RedactForms, NonEmpty, Forms, PercentEncode;
      EmptyForms(text);
      out := text;
      var k := 0;
      assert secrets[..k] == [];
      while k < |secrets|
        invariant k <= |secrets| && NonEmpty(AllForms(secrets[..k]))
        invariant out == RedactForms(text, AllForms(secrets[..k]))
      {
        FormsUpTo(secrets, k);
        out := ReplaceForms(out, Forms(secrets[k]), text, AllForms(secrets[..k]));
        k := k + 1;
      }
      assert secrets[..k] == secrets;
    }
  }

  /** One secret's forms, replaced in turn. */
  method ReplaceForms(redacted: string, forms: seq<string>, ghost text: string, ghost before: seq<string>)
    returns (out: string)
    requires NonEmpty(before + forms) && NonEmpty(before) && redacted == RedactForms(text, before)
    ensures out == RedactForms(text, before + forms)
  {
    hide Replace, Contains;
    out := redacted;
    assert before + forms[..0] == before;
    var j := 0;
    while j < |forms|
      invariant j <= |forms| && NonEmpty(before + forms[..j])
      invariant out == RedactForms(text, before + forms[..j])
    {
      ghost var next := before + forms[..j + 1];
      assert next[..|next| - 1] == before + forms[..j] && next[|next| - 1] == forms[j];
      assert forall i :: 0 <= i < |next| ==> next[i] == (before + forms)[i];
      assert (before + forms)[|before| + j] == forms[j];
      out := Replace(out, forms[j]);
      j := j + 1;
    }
    assert before + forms[..j] == before + forms;
  }

  lemma {:induction false} FormsNonEmpty(secrets: seq<string>)
    requires forall k :: 0 <= k < |secrets| ==> |secrets[k]| >= MinLength
    ensures NonEmpty(AllForms(secrets))
  {
    if secrets != [] {
      FormsNonEmpty(secrets[..|secrets| - 1]);
      EncodingShape(secrets[|secrets| - 1]);
      var forms := Forms(secrets[|secrets| - 1]);
      assert forall k :: 0 <= k < |forms| ==> forms[k] in forms;
    }
  }

  lemma FormsNonEmptyUpTo(secrets: seq<string>, n: nat)
    requires WellKept(secrets) && n <= |secrets|
    ensures NonEmpty(AllForms(secrets[..n]))
  {
    FormsNonEmpty(secrets[..n]);
  }

  /** Without secrets there is nothing to replace. */
  lemma EmptyForms(text: string)
    ensures NonEmpty(AllForms([])) && RedactForms(text, AllForms([])) == text
  {
  }

  /** The forms of one more secret stand after those of the secrets before it. */
  lemma FormsUpTo(secrets: seq<string>, k: nat)
    requires WellKept(secrets) && k < |secrets|
    ensures NonEmpty(AllForms(secrets[..k])) && NonEmpty(AllForms(secrets[..k + 1]))
    ensures AllForms(secrets[..k + 1]) == AllForms(secrets[..k]) + Forms(secrets[k])
  {
    hide WellKept, Forms;
    FormsNonEmptyUpTo(secrets, k);
    FormsNonEmptyUpTo(secrets, k + 1);
    assert secrets[..k + 1][..k] == secrets[..k];
  }

  // ------------------------------------------------------------ exactly complete

  lemma {:induction false} FormOfSecret(secrets: seq<string>, form: string)
    ensures form in AllForms(secrets) <==> exists s :: s in secrets && form in Forms(s)
  {
    hide Forms;
    if secrets != [] {
      var last := secrets[|secrets| - 1];
      FormOfSecret(secrets[..|secrets| - 1], form);
      assert secrets == secrets[..|secrets| - 1] + [last];
    }
  }

  ghost predicate SafeSecrets(secrets: seq<string>) {
    forall s :: s in secrets ==> !Contains(Word(), s)
  }

  /** An encoding lies inside the word only if it is the secret itself. */
  lemma EncodingInWord(secret: string)
    requires Contains(Word(), PercentEncode(secret))
    ensures PercentEncode(secret) == secret
  {
    EncodingShape(secret);
    WordLetters();
    hide Word, PercentEncode;
    PartLetters(Word(), PercentEncode(secret));
  }

  lemma WordLetters()
    ensures forall c :: c in Word() ==> Unreserved(c)
    ensures '%' !in Word()
  {
  }

  lemma PartLetters(text: string, part: string)
    requires Contains(text, part)
    ensures |part| <= |text| && forall c :: c in part ==> c in text
  {
    var i :| 0 <= i <= |text| && part <= text[i..];
    assert forall k :: 0 <= k < |part| ==> part[k] == text[i..][k] == text[i + k];
  }

  lemma SafeFormsHarmless(secrets: seq<string>)
    requires SafeSecrets(secrets) && forall s :: s in secrets ==> BracketFree(s)
    ensures Harmless(AllForms(secrets))
  {
    var forms := AllForms(secrets);
    hide Contains, BracketFree, AllForms, Word;
    forall k | 0 <= k < |forms| ensures BracketFree(forms[k]) && !Contains(Word(), forms[k]) {
      FormOfSecret(secrets, forms[k]);
      var s :| s in secrets && forms[k] in Forms(s);
      EncodingShape(s);
      if Contains(Word(), PercentEncode(s)) {
        EncodingInWord(s);
      }
    }
  }

  /** The percent-encoded form of a secret that does not overlap the mark does not overlap it either. */
  lemma EncodedApart(secret: string)
    requires secret != "" && Apart(secret)
    ensures Apart(PercentEncode(secret))
  {
    EncodingShape(secret);
    if Contains(Word(), PercentEncode(secret)) {
      EncodingInWord(secret);
    } else {
      hide Apart, PercentEncode, Contains, Word;
      BracketFreeApart(PercentEncode(secret));
    }
  }

  lemma ApartForms(secrets: seq<string>)
    requires WellKept(secrets) && forall s :: s in secrets ==> Apart(s)
    ensures AllApart(AllForms(secrets))
  {
    var forms := AllForms(secrets);
    assert forall s :: s in secrets ==> s != "";
    hide Apart, AllForms, PercentEncode, Forms;
    forall k | 0 <= k < |forms| ensures Apart(forms[k]) {
      FormOfSecret(secrets, forms[k]);
      var s :| s in secrets && forms[k] in Forms(s);
      FormsAre(s, forms[k]);
      EncodedApart(s);
    }
  }

  /** Redaction is complete for every text when no secret overlaps the mark that replaces it. */
  lemma RedactionComplete(secrets: seq<string>, text: string)
    requires WellKept(secrets) && forall s :: s in secrets ==> Apart(s)
    ensures NonEmpty(AllForms(secrets)) && !Leaks(RedactForms(text, AllForms(secrets)), secrets)
  {
    FormsNonEmpty(secrets);
    ApartForms(secrets);
    var forms := AllForms(secrets);
    hide Contains, Apart, AllForms, Word, WellKept, RedactForms;
    forall f | f in forms ensures !Contains(RedactForms(text, forms), f) {
      FormsStayGone(text, forms, f);
    }
  }

  /** Among secrets without brackets, those that do not overlap the mark are exactly those outside the word it spells. */
  lemma BracketFreeApartExactly(secret: string)
    requires BracketFree(secret) && secret != ""
    ensures Apart(secret) <==> !Contains(Word(), secret)
  {
    if Contains(Word(), secret) {
      RedactedShape();
      var i :| 0 <= i <= |Word()| && secret <= Word()[i..];
      var mark := Redacted();
      hide Redacted, Word;
      assert mark[1 + i..][..|Word()[i..]|] == mark[1..9][i..];
      assert secret <= mark[1 + i..];
      assert Comparable(secret, mark[1 + i..]);
    } else {
      BracketFreeApart(secret);
    }
  }

  lemma {:induction false} ReplaceAbsent(text: string, form: string)
    requires form != "" && !Contains(text, form)
    ensures Replace(text, form) == text
  {
    assert text[0..] == text;
    if text != "" {
      if Contains(text[1..], form) {
        ContainsLater(text, 1, form);
      }
      ReplaceAbsent(text[1..], form);
      assert [text[0]] + text[1..] == text;
    }
  }

  lemma {:induction false} RedactAbsent(text: string, forms: seq<string>)
    requires NonEmpty(forms) && forall k :: 0 <= k < |forms| ==> !Contains(text, forms[k])
    ensures RedactForms(text, forms) == text
  {
    hide Contains, Replace;
    if forms != [] {
      RedactAbsent(text, forms[..|forms| - 1]);
      ReplaceAbsent(text, forms[|forms| - 1]);
    }
  }

  lemma {:induction false} RedactSplits(text: string, a: seq<string>, b: seq<string>)
    requires NonEmpty(a) && NonEmpty(b)
    ensures NonEmpty(a + b) && RedactForms(text, a + b) == RedactForms(RedactForms(text, a), b)
    decreases |b|
  {
    hide Replace;
    if b == [] {
      assert a + b == a;
    } else {
      assert (a + b)[..|a + b| - 1] == a + b[..|b| - 1];
      RedactSplits(text, a, b[..|b| - 1]);
    }
  }

  lemma {:induction false} AllFormsSplit(a: seq<string>, b: seq<string>)
    ensures AllForms(a + b) == AllForms(a) + AllForms(b)
    decreases |b|
  {
    hide Forms;
    if b == [] {
      assert a + b == a;
    } else {
      assert (a + b)[..|a + b| - 1] == a + b[..|b| - 1];
      AllFormsSplit(a, b[..|b| - 1]);
    }
  }

  /** A form of an earlier, longer secret never lies inside a later one made of plain letters. */
  lemma EarlierFormsOutside(secrets: seq<string>, k: nat, form: string)
    requires WellKept(secrets) && k < |secrets| && Contains(Word(), secrets[k]) && form in AllForms(secrets[..k])
    ensures !Contains(secrets[k], form)
  {
    var s := secrets[k];
    WordLetters();
    hide Word, PercentEncode, AllForms, Forms;
    PartLetters(Word(), s);
    FormOfSecret(secrets[..k], form);
    var e :| e in secrets[..k] && form in Forms(e);
    var j :| 0 <= j < k && secrets[j] == e;
    assert Before(e, s);
    LongestFirstDistinct(secrets, j, k);
    EncodingShape(e);
    FormsAre(e, form);
    if Contains(s, form) {
      PartLetters(s, form);
      WholePart(s, form);
    }
  }

  lemma FormsAre(secret: string, form: string)
    requires form in Forms(secret)
    ensures form == secret || form == PercentEncode(secret)
  {
  }

  lemma WholePart(text: string, part: string)
    requires Contains(text, part) && |part| >= |text|
    ensures part == text
  {
    var i :| 0 <= i <= |text| && part <= text[i..];
    assert text[0..] == text;
  }

  lemma OutsideMark(form: string)
    requires form != "" && BracketFree(form) && !Contains(Word(), form)
    ensures !Contains(Redacted(), form)
  {
    RedactedShape();
    hide Word;
    if Contains(Redacted(), form) {
      var i :| 0 <= i <= |Redacted()| && form <= Redacted()[i..];
      assert Redacted() + "" == Redacted();
      InsideMark("", form, i);
    }
  }

  lemma MarkContains(part: string)
    requires Contains(Word(), part)
    ensures Contains(Redacted(), part)
  {
    RedactedShape();
    hide Redacted, Word;
    var i :| 0 <= i <= |Word()| && part <= Word()[i..];
    var all := Redacted();
    assert all[1 + i..][..|Word()[i..]|] == all[1..9][i..];
    assert part <= all[1 + i..];
  }

  /** The one word the mark spells, as a secret, is replaced by a mark that spells it again. */
  lemma WordTurnsIntoMark(secret: string)
    requires Contains(Word(), secret) && secret != ""
    ensures Forms(secret) == [secret] && Replace(secret, secret) == Redacted()
  {
    WordLetters();
    EncodingShape(secret);
    hide Word, PercentEncode;
    PartLetters(Word(), secret);
    assert secret[|secret|..] == "" && Redacted() + "" == Redacted();
  }

  ghost predicate LastInWord(secrets: seq<string>, k: nat) {
    k < |secrets| && Contains(Word(), secrets[k]) && SafeSecrets(secrets[k + 1..])
  }

  lemma {:induction false} PickLast(secrets: seq<string>, n: nat) returns (k: nat)
    requires n <= |secrets| && SafeSecrets(secrets[n..])
    requires exists j :: 0 <= j < n && Contains(Word(), secrets[j])
    ensures LastInWord(secrets, k)
    decreases n
  {
    hide Contains, Word;
    if Contains(Word(), secrets[n - 1]) {
      k := n - 1;
    } else {
      assert secrets[n - 1..] == [secrets[n - 1]] + secrets[n..];
      k := PickLast(secrets, n - 1);
    }
  }

  lemma LateFormsMiss(secrets: seq<string>, k: nat)
    requires WellKept(secrets) && LastInWord(secrets, k) && forall s :: s in secrets ==> BracketFree(s)
    ensures var late := AllForms(secrets[k + 1..]);
            NonEmpty(late) && forall j :: 0 <= j < |late| ==> !Contains(Redacted(), late[j])
  {
    var rest := secrets[k + 1..];
    var late := AllForms(rest);
    FormsNonEmpty(rest);
    hide Contains, BracketFree, Word, Redacted, AllForms;
    assert forall s :: s in rest ==> s in secrets;
    SafeFormsHarmless(rest);
    forall j | 0 <= j < |late| ensures !Contains(Redacted(), late[j]) {
      OutsideMark(late[j]);
    }
  }

  lemma TextBecomesMark(secrets: seq<string>, k: nat)
    requires WellKept(secrets) && k < |secrets| && Contains(Word(), secrets[k])
    ensures var before := AllForms(secrets[..k]) + Forms(secrets[k]);
            NonEmpty(before) && RedactForms(secrets[k], before) == Redacted()
    ensures secrets[k] in Forms(secrets[k])
  {
    var text, early := secrets[k], AllForms(secrets[..k]);
    assert |text| >= MinLength;
    FormsNonEmptyUpTo(secrets, k);
    hide Contains, Word, Redacted, AllForms, WellKept, Replace, Forms;
    forall j | 0 <= j < |early| ensures !Contains(text, early[j]) {
      EarlierFormsOutside(secrets, k, early[j]);
    }
    WordTurnsIntoMark(text);
    RedactAbsent(text, early);
    RedactSplits(text, early, [text]);
    assert [text][..0] == [];
    assert RedactForms(text, [text]) == Replace(text, text);
  }

  lemma FormsOfOne(secret: string)
    ensures AllForms([secret]) == Forms(secret)
  {
    hide Forms;
    assert [secret][..0] == [];
    assert AllForms([]) == [];
  }

  lemma Around(secrets: seq<string>, k: nat)
    requires k < |secrets|
    ensures secrets[..k] + [secrets[k]] + secrets[k + 1..] == secrets
  {
  }

  lemma SplitAround(secrets: seq<string>, k: nat)
    requires k < |secrets|
    ensures AllForms(secrets) == AllForms(secrets[..k]) + Forms(secrets[k]) + AllForms(secrets[k + 1..])
  {
    hide Forms, AllForms;
    Around(secrets, k);
    FormsOfOne(secrets[k]);
    AllFormsSplit(secrets[..k] + [secrets[k]], secrets[k + 1..]);
    AllFormsSplit(secrets[..k], [secrets[k]]);
  }

  /** If some secret is part of `redacted`, there is a text whose redaction still leaks. */
  lemma RedactionIncomplete(secrets: seq<string>) returns (text: string)
    requires WellKept(secrets) && !SafeSecrets(secrets) && forall s :: s in secrets ==> BracketFree(s)
    ensures NonEmpty(AllForms(secrets)) && Leaks(RedactForms(text, AllForms(secrets)), secrets)
  {
    FormsNonEmpty(secrets);
    assert SafeSecrets(secrets[|secrets|..]);
    assert exists j :: 0 <= j < |secrets| && Contains(Word(), secrets[j]);
    var k := PickLast(secrets, |secrets|);
    text := secrets[k];
    var early, late := AllForms(secrets[..k]), AllForms(secrets[k + 1..]);
    hide Contains, BracketFree, Word, Redacted, WellKept, SafeSecrets, Replace, PercentEncode, Forms, AllForms;
    LateFormsMiss(secrets, k);
    TextBecomesMark(secrets, k);
    RedactAbsent(Redacted(), late);
    SplitAround(secrets, k);
    RedactSplits(text, early + Forms(text), late);
    MarkContains(text);
  }

  predicate Plain(s: string) {
    forall c :: c in s ==> Unreserved(c)
  }

  /**
   * Brackets matter too: replacing a shorter secret puts a `]` in front of what follows
   * it, and so can spell a longer one that was searched for before.
   */
  lemma BracketsCanLeak(tail: string, other: string)
    requires Plain(tail) && Plain(other) && |other| >= MinLength && |tail| >= |other| && !Contains(tail, other)
    ensures WellKept([[']'] + tail, other]) && NonEmpty(AllForms([[']'] + tail, other]))
    ensures Leaks(RedactForms(other + tail, AllForms([[']'] + tail, other])), [[']'] + tail, other])
  {
    var long := [']'] + tail;
    var secrets := [long, other];
    var text := other + tail;
    var early := AllForms([long]);
    assert WellKept(secrets) && WellKept([long]);
    PairForms(long, other);
    ShorterTurnsIntoMark(tail, other);
    hide Contains, Plain, Unreserved, WellKept, AllForms, Forms, PercentEncode, Replace, Redacted;
    FormsNonEmpty(secrets);
    FormsNonEmpty([long]);
    LongFormsMiss(long, text);
    RedactAbsent(text, early);
    RedactSplits(text, early, [other]);
    assert [other][..0] == [];
    assert RedactForms(text, [other]) == Replace(text, other);
    MarkThen(tail);
  }

  lemma PlainForms(other: string)
    requires Plain(other)
    ensures Forms(other) == [other]
  {
    EncodingShape(other);
    hide PercentEncode;
  }

  /** The forms of a secret and a plain one after it. */
  lemma PairForms(long: string, other: string)
    requires Plain(other)
    ensures AllForms([long, other]) == AllForms([long]) + [other]
    ensures long in AllForms([long, other])
  {
    hide Forms, Plain, PercentEncode, AllForms, LongestFirst;
    PlainForms(other);
    FormsOfOne(long);
    FormsOfOne(other);
    assert [long] + [other] == [long, other];
    AllFormsSplit([long], [other]);
    OwnForm(long);
  }

  lemma OwnForm(secret: string)
    ensures secret in Forms(secret)
  {
  }

  lemma ShorterTurnsIntoMark(tail: string, other: string)
    requires other != "" && !Contains(tail, other)
    ensures Replace(other + tail, other) == Redacted() + tail
  {
    assert (other + tail)[|other|..] == tail && other <= other + tail;
    hide Contains;
    ReplaceAbsent(tail, other);
  }

  lemma LongFormsMiss(long: string, text: string)
    requires long != "" && long[0] == ']' && Plain(text)
    ensures var forms := AllForms([long]); forall k :: 0 <= k < |forms| ==> !Contains(text, forms[k])
  {
    FormsOfOne(long);
    EncodingShape(long);
    var forms := AllForms([long]);
    assert long[0] in long && !Unreserved(']') && !Unreserved('%');
    hide PercentEncode, AllForms, Forms, Unreserved;
    forall k | 0 <= k < |forms| ensures !Contains(text, forms[k]) {
      FormsAre(long, forms[k]);
      if Contains(text, forms[k]) {
        PartLetters(text, forms[k]);
      }
    }
  }

  lemma MarkThen(tail: string)
    ensures Contains(Redacted() + tail, [']'] + tail)
  {
    RedactedShape();
    var all := Redacted() + tail;
    hide Redacted;
    assert all[9..] == [']'] + tail;
  }
}
