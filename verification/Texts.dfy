/** Text taken apart at a separator and put together again, trimmed, and read as a decimal number. */
module Texts {

  /** The text between occurrences of `c`, in order; always at least one piece. */
  function Pieces(s: string, c: char): (r: seq<string>)
    ensures |r| >= 1
  {
    if s == "" then [""]
    else
      var rest := Pieces(s[1..], c);
      if s[0] == c then [""] + rest
      else [[s[0]] + rest[0]] + rest[1..]
  }

  function Join(pieces: seq<string>, c: char): string
    requires |pieces| >= 1
  {
    if |pieces| == 1 then pieces[0] else pieces[0] + [c] + Join(pieces[1..], c)
  }

  /** Nothing is lost by splitting, so no two texts have the same pieces. */
  lemma {:induction false} PiecesJoin(s: string, c: char)
    ensures Join(Pieces(s, c), c) == s
  {
    if s != "" {
      PiecesJoin(s[1..], c);
      var rest := Pieces(s[1..], c);
      if s[0] == c {
        assert ([""] + rest)[1..] == rest;
      } else {
        var r := [[s[0]] + rest[0]] + rest[1..];
        assert r[1..] == rest[1..];
      }
    }
  }

  /** No piece holds the separator. */
  lemma {:induction false} PiecesPlain(s: string, c: char)
    ensures forall k :: 0 <= k < |Pieces(s, c)| ==> c !in Pieces(s, c)[k]
  {
    if s != "" {
      PiecesPlain(s[1..], c);
    }
  }

  /** Pieces without the separator, joined by it, are told apart again. */
  lemma {:induction false} JoinPieces(pieces: seq<string>, c: char)
    requires |pieces| >= 1 && forall k :: 0 <= k < |pieces| ==> c !in pieces[k]
    ensures Pieces(Join(pieces, c), c) == pieces
    decreases |pieces|, |pieces[0]|
  {
    var s := Join(pieces, c);
    if pieces[0] == "" {
      if |pieces| > 1 {
        assert s == [c] + Join(pieces[1..], c);
        JoinPieces(pieces[1..], c);
        assert [""] + pieces[1..] == pieces;
      }
    } else {
      var shorter := [pieces[0][1..]] + pieces[1..];
      assert shorter[1..] == pieces[1..];
      assert s[0] == pieces[0][0] && s[1..] == Join(shorter, c);
      assert pieces[0][0] in pieces[0];
      JoinPieces(shorter, c);
      assert [s[0]] + shorter[0] == pieces[0];
    }
  }

  // ------------------------------------------------------------------- trimming

  /** Unicode white space. */
  predicate IsSpace(c: char) {
    var n := c as int;
    9 <= n <= 13 || n == 0x20 || n == 0x85 || n == 0xA0 || n == 0x1680 || 0x2000 <= n <= 0x200A ||
    n == 0x2028 || n == 0x2029 || n == 0x202F || n == 0x205F || n == 0x3000
  }

  predicate Trimmed(s: string) {
    s != "" ==> !IsSpace(s[0]) && !IsSpace(s[|s| - 1])
  }

  /** The text without the white space around it. */
  function Trim(s: string): (r: string)
    ensures Trimmed(r)
    ensures Trimmed(s) <==> r == s
    decreases |s|
  {
    if s == "" then ""
    else if IsSpace(s[0]) then Trim(s[1..])
    else if IsSpace(s[|s| - 1]) then Trim(s[..|s| - 1])
    else s
  }

  // -------------------------------------------------------------------- numbers

  predicate IsDigit(c: char) {
    '0' <= c <= '9'
  }

  predicate Digital(s: string) {
    forall k :: 0 <= k < |s| ==> IsDigit(s[k])
  }

  /** The number a run of digits is read as, base ten. */
  function Number(digits: string): nat
    requires Digital(digits)
  {
    if digits == "" then 0
    else
      assert IsDigit(digits[|digits| - 1]);
      10 * Number(digits[..|digits| - 1]) + (digits[|digits| - 1] - '0') as nat
  }

  /** The number written out, without leading zeros. */
  function Decimal(n: nat): (s: string)
    ensures s != "" && Digital(s)
  {
    var last := [('0' as nat + n % 10) as char];
    if n < 10 then last else Decimal(n / 10) + last
  }

  function Zeros(k: nat): (s: string)
    ensures |s| == k && forall i :: 0 <= i < k ==> s[i] == '0'
  {
    seq(k, i => '0')
  }

  /** Written out with any number of leading zeros. */
  ghost predicate Numeral(digits: string, n: nat) {
    exists k: nat :: digits == Zeros(k) + Decimal(n)
  }

  lemma {:induction false} ZerosNumber(k: nat)
    ensures Number(Zeros(k)) == 0
  {
    if k > 0 {
      assert Zeros(k)[..k - 1] == Zeros(k - 1);
      ZerosNumber(k - 1);
    }
  }

  lemma {:induction false} DecimalNumber(k: nat, n: nat)
    ensures Digital(Zeros(k) + Decimal(n)) && Number(Zeros(k) + Decimal(n)) == n
  {
    var s := Zeros(k) + Decimal(n);
    assert s[|s| - 1] == Decimal(n)[|Decimal(n)| - 1];
    assert s[|s| - 1] as nat - '0' as nat == n % 10;
    if n >= 10 {
      DecimalNumber(k, n / 10);
      assert s[..|s| - 1] == Zeros(k) + Decimal(n / 10);
    } else {
      ZerosNumber(k);
      assert s[..|s| - 1] == Zeros(k);
    }
  }

  lemma NumeralDigits(digits: string, n: nat)
    requires Numeral(digits, n)
    ensures digits != "" && Digital(digits) && Number(digits) == n
  {
    hide Number, Decimal, Zeros;
    var k: nat :| digits == Zeros(k) + Decimal(n);
    DecimalNumber(k, n);
  }

  lemma {:induction false} AllZeros(digits: string)
    requires Digital(digits) && Number(digits) == 0
    ensures digits == Zeros(|digits|)
  {
    if digits != "" {
      AllZeros(digits[..|digits| - 1]);
      assert digits == digits[..|digits| - 1] + [digits[|digits| - 1]];
    }
  }

  /** A run of digits is read as exactly the number it writes out. */
  lemma {:induction false} NumberReads(digits: string, n: nat)
    requires digits != "" && Digital(digits)
    ensures Number(digits) == n <==> Numeral(digits, n)
  {
    if Number(digits) == n {
      NumeralOf(digits);
    }
    if Numeral(digits, n) {
      var k: nat :| digits == Zeros(k) + Decimal(n);
      DecimalNumber(k, n);
    }
  }

  lemma {:induction false} NumeralOf(digits: string)
    requires digits != "" && Digital(digits)
    ensures Numeral(digits, Number(digits))
  {
    var init, last := digits[..|digits| - 1], digits[|digits| - 1];
    assert digits == init + [last] && IsDigit(last);
    var n := Number(digits);
    if n < 10 {
      assert Number(init) == 0;
      AllZeros(init);
      assert digits == Zeros(|init|) + Decimal(n);
    } else {
      NumeralOf(init);
      var k: nat :| init == Zeros(k) + Decimal(Number(init));
      assert n / 10 == Number(init) && n % 10 == (last - '0') as nat;
      assert digits == Zeros(k) + Decimal(n);
    }
  }

  // ------------------------------------------------------------------ alphabets

  lemma UpperLetters(c: char)
    ensures 'A' <= c <= 'Z' <==> c in "ABCDEFGHIJKLMNOPQRSTUVWXYZ"
  {
    if 'A' <= c <= 'Z' {
      assert "ABCDEFGHIJKLMNOPQRSTUVWXYZ"[c as nat - 'A' as nat] == c;
    }
  }

  lemma LowerLetters(c: char)
    ensures 'a' <= c <= 'z' <==> c in "abcdefghijklmnopqrstuvwxyz"
  {
    if 'a' <= c <= 'z' {
      assert "abcdefghijklmnopqrstuvwxyz"[c as nat - 'a' as nat] == c;
    }
  }

  lemma DigitCharacters(c: char)
    ensures '0' <= c <= '9' <==> c in "0123456789"
  {
    if '0' <= c <= '9' {
      assert "0123456789"[c as nat - '0' as nat] == c;
    }
  }
}
