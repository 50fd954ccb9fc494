/** The checks of the payment form (src/fragments/CreditCardForm.js): the Luhn
    mod-10 check of the card number (ISO/IEC 7812-1, Annex B), the MM/YY
    expiry check against the current date, and the submit handler that gates
    the order on the first of them. */
module Payment {
  import opened Common
  import Cart

  predicate IsDigit(c: CodeUnit) { 0x30 <= c <= 0x39 }

  predicate AllDigits(s: Utf16) { forall i :: 0 <= i < |s| ==> IsDigit(s[i]) }

  function Val(c: CodeUnit): (v: nat)
    requires IsDigit(c)
    ensures v <= 9
  {
    c as int - 0x30
  }

  /** `parseInt(cardNumber.charAt(i), 10)`: a single ASCII digit reads as its
      value; any other code unit (a lone space trims to nothing) gives NaN. */
  function DigitValue(c: CodeUnit): (d: JsInt)
    ensures d.Int? <==> IsDigit(c)
    ensures d.Int? ==> d.value == Val(c)
  {
    if IsDigit(c) then Int(c as int - 0x30) else NaN
  }

  /** What one digit adds to the sum: itself, or on a doubled position twice
      itself less 9 when that exceeds 9. NaN stays NaN (`NaN * 2 > 9` is
      false). */
  function Contribution(d: JsInt, doubled: bool): (r: JsInt)
    ensures r.Int? <==> d.Int?
    ensures d.Int? && 0 <= d.value <= 9 ==> 0 <= r.value <= 9
  {
    if d.NaN? then NaN
    else if doubled then (if d.value * 2 > 9 then Int(d.value * 2 - 9) else Int(d.value * 2))
    else d
  }

  /** The sum the loop accumulates over `s`, whose last code unit is on a
      doubled position exactly when `doubled` holds. */
  function LuhnSum(s: Utf16, doubled: bool): (r: JsInt)
    ensures r.Int? ==> 0 <= r.value <= 9 * |s|
  {
    if s == [] then Int(0)
    else Plus(LuhnSum(s[..|s| - 1], !doubled), Contribution(DigitValue(s[|s| - 1]), doubled))
  }

  /** `sum % 10 === 0`; the sum is never negative, so JavaScript's remainder
      and Dafny's agree, and NaN is never `=== 0`. */
  predicate LuhnValid(s: Utf16)
  {
    var sum := LuhnSum(s, false);
    sum.Int? && sum.value % 10 == 0
  }

  /** `validateLuhnAlgorithm(cardNumber)`: scans from the rightmost code unit,
      doubling every second one. */
  method ValidateLuhnAlgorithm(cardNumber: Utf16) returns (valid: bool)
    ensures valid == LuhnValid(cardNumber)
  {
    var sum := Int(0);
    var isEven := false;
    var i := |cardNumber| - 1;
    assert cardNumber[..i + 1] == cardNumber;
    while i >= 0
      invariant -1 <= i < |cardNumber|
      invariant Plus(sum, LuhnSum(cardNumber[..i + 1], isEven)) == LuhnSum(cardNumber, false)
      decreases i
    {
      assert cardNumber[..i + 1][..i] == cardNumber[..i];
      var digit := DigitValue(cardNumber[i]);
      if isEven {
        digit := if digit.Int? then Int(digit.value * 2) else NaN;
        if digit.Int? && digit.value > 9 {
          digit := Int(digit.value - 9);
        }
      }
      sum := Plus(sum, digit);
      isEven := !isEven;
      i := i - 1;
    }
    assert cardNumber[..0] == [];
    valid := sum.Int? && sum.value % 10 == 0;
  }

  // ---------------------------------------------------------------------------
  // Luhn, as the standard states it

  /** The digit sum of twice `d` ("double-add-double"), or `d` itself. */
  function Weight(d: nat, doubled: bool): (w: nat)
    requires d <= 9
    ensures w <= 9
  {
    if doubled then (2 * d) / 10 + (2 * d) % 10 else d
  }

  /** Weighted digit sum read from the left: the digit at position `i` of `s`
      is doubled when an odd number of digits follow it, the parity being
      flipped by `shifted`. */
  function AnnexBSum(s: Utf16, shifted: bool): nat
    requires AllDigits(s)
  {
    if s == [] then 0
    else Weight(Val(s[0]), (|s| % 2 == 0) != shifted) + AnnexBSum(s[1..], shifted)
  }

  lemma ContributionIsWeight(c: CodeUnit, doubled: bool)
    requires IsDigit(c)
    ensures Contribution(DigitValue(c), doubled) == Int(Weight(Val(c), doubled))
  {
  }

  /** A string with one more code unit is all digits exactly when the string
      and the unit are. */
  lemma AllDigitsSnoc(t: Utf16, c: CodeUnit)
    ensures AllDigits(t + [c]) <==> AllDigits(t) && IsDigit(c)
  {
    var s := t + [c];
    assert s[|t|] == c;
    assert forall i :: 0 <= i < |t| ==> s[i] == t[i];
  }

  /** The tail of a digit string is a digit string. */
  lemma AllDigitsTail(t: Utf16)
    requires AllDigits(t) && t != []
    ensures AllDigits(t[1..])
  {
    assert forall i :: 0 <= i < |t| - 1 ==> t[1..][i] == t[i + 1];
  }

  lemma {:induction false} AnnexBSnoc(t: Utf16, c: CodeUnit, shifted: bool)
    requires AllDigits(t) && IsDigit(c)
    ensures AllDigits(t + [c])
    ensures AnnexBSum(t + [c], shifted) == AnnexBSum(t, !shifted) + Weight(Val(c), shifted)
  {
    AllDigitsSnoc(t, c);
    var s := t + [c];
    if t == [] {
      assert s == [c] && s[1..] == [];
    } else {
      assert s[0] == t[0] && s[1..] == t[1..] + [c];
      AllDigitsTail(t);
      AnnexBSnoc(t[1..], c, shifted);
      assert ((|s| % 2 == 0) != shifted) == ((|t| % 2 == 0) != !shifted) by {
        assert |s| == |t| + 1;
      }
    }
  }

  /** The loop's sum is the standard's weighted sum, and it is a number
      exactly when every code unit is a digit. */
  lemma {:induction false} LuhnSumIsAnnexB(s: Utf16, doubled: bool)
    ensures LuhnSum(s, doubled).Int? <==> AllDigits(s)
    ensures AllDigits(s) ==> LuhnSum(s, doubled) == Int(AnnexBSum(s, doubled))
  {
    if s != [] {
      var t := s[..|s| - 1];
      var c := s[|s| - 1];
      assert s == t + [c];
      LuhnSumIsAnnexB(t, !doubled);
      AllDigitsSnoc(t, c);
      if IsDigit(c) {
        ContributionIsWeight(c, doubled);
        if AllDigits(t) {
          AnnexBSnoc(t, c, doubled);
        }
      }
    }
  }

  /** The check accepts exactly the digit strings whose weighted sum is a
      multiple of 10. */
  lemma LuhnIsMod10(s: Utf16)
    ensures LuhnValid(s) <==> AllDigits(s) && AnnexBSum(s, false) % 10 == 0
  {
    LuhnSumIsAnnexB(s, false);
  }

  /** The weighted sum of a concatenation: the left part's parity is shifted
      by the length of the right part. */
  lemma {:induction false} AnnexBAppend(a: Utf16, b: Utf16, shifted: bool)
    requires AllDigits(a) && AllDigits(b)
    ensures AllDigits(a + b)
    ensures AnnexBSum(a + b, shifted) == AnnexBSum(a, shifted != (|b| % 2 == 1)) + AnnexBSum(b, shifted)
  {
    var s := a + b;
    assert AllDigits(s) by {
      forall i | 0 <= i < |s| ensures IsDigit(s[i]) {
        if i < |a| { assert s[i] == a[i]; } else { assert s[i] == b[i - |a|]; }
      }
    }
    if a != [] {
      var a' := a[1..];
      assert s[1..] == a' + b;
      assert AllDigits(a') by {
        forall i | 0 <= i < |a'| ensures IsDigit(a'[i]) { assert a'[i] == a[i + 1]; }
      }
      AnnexBAppend(a', b, shifted);
      var shifted' := shifted != (|b| % 2 == 1);
      Parity(|a|, |b|);
      assert ((|s| % 2 == 0) != shifted) == ((|a| % 2 == 0) != shifted');
      assert AnnexBSum(s, shifted)
             == Weight(Val(a[0]), (|s| % 2 == 0) != shifted) + AnnexBSum(a' + b, shifted);
      assert AnnexBSum(a, shifted')
             == Weight(Val(a[0]), (|a| % 2 == 0) != shifted') + AnnexBSum(a', shifted');
    } else {
      assert s == b;
    }
  }

  lemma Parity(x: nat, y: nat)
    ensures ((x + y) % 2 == 0) == ((x % 2 == 0) == (y % 2 == 0))
    ensures (y % 2 == 1) == !(y % 2 == 0)
  {
  }

  const ExampleCard: Utf16 := [0x34, 0x32, 0x36, 0x33, 0x39, 0x38, 0x32, 0x36,
                               0x34, 0x30, 0x32, 0x36, 0x39, 0x32, 0x39, 0x39]
  const ExampleBlock1: Utf16 := [0x34, 0x32, 0x36, 0x33]
  const ExampleBlock2: Utf16 := [0x39, 0x38, 0x32, 0x36]
  const ExampleBlock3: Utf16 := [0x34, 0x30, 0x32, 0x36]
  const ExampleBlock4: Utf16 := [0x39, 0x32, 0x39, 0x39]

  lemma ExampleCardUnits()
    ensures Units("4263982640269299") == ExampleCard
  {
    UnitsAre("4263982640269299", ExampleCard);
  }

  lemma ExampleCardBlocks()
    ensures ExampleCard == ExampleBlock1 + (ExampleBlock2 + (ExampleBlock3 + ExampleBlock4))
  {
  }

  /** Four digits weigh double, single, double, single from the left. */
  lemma FourDigits(a: CodeUnit, b: CodeUnit, c: CodeUnit, d: CodeUnit)
    requires IsDigit(a) && IsDigit(b) && IsDigit(c) && IsDigit(d)
    ensures AllDigits([a, b, c, d])
    ensures AnnexBSum([a, b, c, d], false)
            == Weight(Val(a), true) + Val(b) + Weight(Val(c), true) + Val(d)
  {
    var s := [a, b, c, d];
    assert s[1..] == [b, c, d] && [b, c, d][1..] == [c, d] && [c, d][1..] == [d] && [d][1..] == [];
    assert AllDigits([d]) && AllDigits([c, d]) && AllDigits([b, c, d]) && AllDigits(s);
    assert AnnexBSum([d], false) == Val(d);
    assert AnnexBSum([c, d], false) == Weight(Val(c), true) + Val(d);
    assert AnnexBSum([b, c, d], false) == Val(b) + Weight(Val(c), true) + Val(d);
  }

  /** Sixteen digits weigh as four blocks of four. */
  lemma InFours(b1: Utf16, b2: Utf16, b3: Utf16, b4: Utf16)
    requires |b1| == 4 && |b2| == 4 && |b3| == 4 && |b4| == 4
    requires AllDigits(b1) && AllDigits(b2) && AllDigits(b3) && AllDigits(b4)
    ensures AllDigits(b1 + (b2 + (b3 + b4)))
    ensures AnnexBSum(b1 + (b2 + (b3 + b4)), false)
            == AnnexBSum(b1, false) + AnnexBSum(b2, false) + AnnexBSum(b3, false) + AnnexBSum(b4, false)
  {
    var c := b3 + b4;
    AnnexBAppend(b3, b4, false);
    assert |c| == 8;
    var d := b2 + c;
    AnnexBAppend(b2, c, false);
    assert |d| == 12;
    AnnexBAppend(b1, d, false);
  }

  /** The example's blocks weigh 16, 27, 18 and 29. */
  lemma ExampleBlock1Sum()
    ensures AllDigits(ExampleBlock1) && AnnexBSum(ExampleBlock1, false) == 16
  {
    assert ExampleBlock1 == [0x34, 0x32, 0x36, 0x33];
    FourDigits(0x34, 0x32, 0x36, 0x33);
  }

  lemma ExampleBlock2Sum()
    ensures AllDigits(ExampleBlock2) && AnnexBSum(ExampleBlock2, false) == 27
  {
    assert ExampleBlock2 == [0x39, 0x38, 0x32, 0x36];
    FourDigits(0x39, 0x38, 0x32, 0x36);
  }

  lemma ExampleBlock3Sum()
    ensures AllDigits(ExampleBlock3) && AnnexBSum(ExampleBlock3, false) == 18
  {
    assert ExampleBlock3 == [0x34, 0x30, 0x32, 0x36];
    FourDigits(0x34, 0x30, 0x32, 0x36);
  }

  lemma ExampleBlock4Sum()
    ensures AllDigits(ExampleBlock4) && AnnexBSum(ExampleBlock4, false) == 29
  {
    assert ExampleBlock4 == [0x39, 0x32, 0x39, 0x39];
    FourDigits(0x39, 0x32, 0x39, 0x39);
  }

  lemma ExampleCardSum()
    ensures AllDigits(ExampleCard)
    ensures AnnexBSum(ExampleCard, false) == 90
  {
    ExampleBlock1Sum();
    ExampleBlock2Sum();
    ExampleBlock3Sum();
    ExampleBlock4Sum();
    InFours(ExampleBlock1, ExampleBlock2, ExampleBlock3, ExampleBlock4);
    ExampleCardBlocks();
  }

  /** A digit string whose weighted sum is 90 passes. */
  lemma NinetyPasses(s: Utf16)
    requires AllDigits(s) && AnnexBSum(s, false) == 90
    ensures LuhnValid(s)
  {
    LuhnIsMod10(s);
  }

  lemma ExampleCardValid()
    ensures LuhnValid(ExampleCard)
  {
    ExampleCardSum();
    NinetyPasses(ExampleCard);
  }

  /** The documented example number 4263982640269299 passes. */
  lemma DocumentedExampleValid()
    ensures LuhnValid(Units("4263982640269299"))
  {
    ExampleCardUnits();
    ExampleCardValid();
  }

  /** Replacing one digit changes the weighted sum by the change in that
      digit's weight alone. */
  lemma {:induction false} AnnexBReplace(s: Utf16, i: nat, c: CodeUnit, shifted: bool)
    requires AllDigits(s) && i < |s| && IsDigit(c)
    ensures AllDigits(s[i := c])
    ensures AnnexBSum(s[i := c], shifted)
            == AnnexBSum(s, shifted) - Weight(Val(s[i]), ((|s| - i) % 2 == 0) != shifted)
               + Weight(Val(c), ((|s| - i) % 2 == 0) != shifted)
  {
    var r := s[i := c];
    assert AllDigits(r) by {
      forall j | 0 <= j < |r| ensures IsDigit(r[j]) { if j != i { assert r[j] == s[j]; } }
    }
    if i == 0 {
      assert r[1..] == s[1..];
    } else {
      assert r[1..] == s[1..][i - 1 := c];
      assert AllDigits(s[1..]) by {
        forall j | 0 <= j < |s[1..]| ensures IsDigit(s[1..][j]) { assert s[1..][j] == s[j + 1]; }
      }
      AnnexBReplace(s[1..], i - 1, c, shifted);
    }
  }

  /** On a fixed position, different digits weigh differently. */
  lemma WeightInjective(a: nat, b: nat, doubled: bool)
    requires a <= 9 && b <= 9 && a != b
    ensures Weight(a, doubled) != Weight(b, doubled)
  {
    if doubled {
      DoubledWeight(a);
      DoubledWeight(b);
    }
  }

  /** A doubled digit weighs twice itself, less 9 from 5 on. */
  lemma DoubledWeight(d: nat)
    requires d <= 9
    ensures Weight(d, true) == if d <= 4 then 2 * d else 2 * d - 9
  {
    if d <= 4 {
      assert (2 * d) / 10 == 0;
    } else {
      assert (2 * d) / 10 == 1 && (2 * d) % 10 == 2 * d - 10;
    }
  }

  /** A single mistyped digit is always caught: changing one digit of a valid
      number to another digit makes it invalid. */
  lemma SingleDigitErrorDetected(s: Utf16, i: nat, c: CodeUnit)
    requires LuhnValid(s) && i < |s| && IsDigit(c) && c != s[i]
    ensures !LuhnValid(s[i := c])
  {
    LuhnIsMod10(s);
    var p := ((|s| - i) % 2 == 0) != false;
    AnnexBReplace(s, i, c, false);
    WeightInjective(Val(s[i]), Val(c), p);
    var change := Weight(Val(c), p) - Weight(Val(s[i]), p);
    CarryOffMultiple(AnnexBSum(s, false), change);
    LuhnIsMod10(s[i := c]);
  }

  /** A multiple of 10 moved by a nonzero amount under 10 is no longer one. */
  lemma CarryOffMultiple(x: int, d: int)
    requires x % 10 == 0 && -10 < d < 10 && d != 0
    ensures (x + d) % 10 != 0
  {
  }

  /** Any code unit other than an ASCII digit makes the number invalid. */
  lemma NonDigitRejected(s: Utf16)
    requires !AllDigits(s)
    ensures !LuhnValid(s)
  {
    LuhnSumIsAnnexB(s, false);
  }

  // ---------------------------------------------------------------------------
  // Expiry date

  const Slash: CodeUnit := 0x2F

  /** `s.split("/")`: the pieces between the slashes, in order. */
  function Split(s: Utf16): (pieces: seq<Utf16>)
    ensures |pieces| >= 1
    ensures forall k :: 0 <= k < |pieces| ==> Slash !in pieces[k]
  {
    if s == [] then [[]]
    else
      var rest := Split(s[1..]);
      if s[0] == Slash then [[]] + rest
      else [[s[0]] + rest[0]] + rest[1..]
  }

  /** The pieces joined back with "/" in between. */
  function Join(pieces: seq<Utf16>): Utf16
    requires |pieces| >= 1
  {
    if |pieces| == 1 then pieces[0] else pieces[0] + [Slash] + Join(pieces[1..])
  }

  /** Splitting loses nothing: joining the pieces gives the string back. */
  lemma {:induction false} JoinSplit(s: Utf16)
    ensures Join(Split(s)) == s
  {
    if s != [] {
      JoinSplit(s[1..]);
      var rest := Split(s[1..]);
      if s[0] == Slash {
        assert Split(s)[1..] == rest;
      } else {
        var p := Split(s);
        assert p[0] == [s[0]] + rest[0];
        if |rest| > 1 {
          assert p[1..] == rest[1..];
          assert Join(rest) == rest[0] + [Slash] + Join(rest[1..]);
        }
      }
    }
  }

  /** A piece without "/" followed by "/" comes out as the first piece. */
  lemma {:induction false} SplitAfterPiece(p: Utf16, rest: Utf16)
    requires Slash !in p
    ensures Split(p + [Slash] + rest) == [p] + Split(rest)
  {
    if p != [] {
      assert (p + [Slash] + rest)[1..] == p[1..] + [Slash] + rest;
      SplitAfterPiece(p[1..], rest);
      assert [p[0]] + p[1..] == p;
    } else {
      assert (p + [Slash] + rest)[1..] == rest;
    }
  }

  /** A piece without "/" that ends the string, or is followed by "/", is
      the first piece. */
  lemma {:induction false} SplitFirstPiece(p: Utf16, tail: Utf16)
    requires Slash !in p
    requires tail == [] || tail[0] == Slash
    ensures Split(p + tail)[0] == p
  {
    if p != [] {
      assert (p + tail)[1..] == p[1..] + tail;
      SplitFirstPiece(p[1..], tail);
      assert [p[0]] + p[1..] == p;
    } else {
      assert p + tail == tail;
    }
  }

  /** `/^\d{2}$/.test(piece)`. */
  predicate IsTwoDigits(p: Utf16) { |p| == 2 && IsDigit(p[0]) && IsDigit(p[1]) }

  /** `Number(piece)` for two ASCII digits. */
  function TwoDigitValue(p: Utf16): (n: nat)
    requires IsTwoDigits(p)
    ensures n < 100
  {
    10 * Val(p[0]) + Val(p[1])
  }

  /** Two digits spelling `n`, leading zero included. */
  function Pad2(n: nat): (p: Utf16)
    requires n < 100
    ensures IsTwoDigits(p)
  {
    [(0x30 + n / 10) as CodeUnit, (0x30 + n % 10) as CodeUnit]
  }

  /** `Pad2` and `TwoDigitValue` are inverse to each other. */
  lemma Pad2RoundTrip(n: nat, p: Utf16)
    requires n < 100 && IsTwoDigits(p)
    ensures TwoDigitValue(Pad2(n)) == n
    ensures Pad2(TwoDigitValue(p)) == p
  {
  }

  /** `isExpireDateValid(expireDate)`, with the clock's two-digit year and
      1-based month passed in. Only the first two pieces of the split count;
      a missing second piece is `undefined`, which the pattern rejects. */
  function IsExpireDateValid(expireDate: Utf16, currentYear: int, currentMonth: int): bool
  {
    var pieces := Split(expireDate);
    var month := pieces[0];
    var year: Option<Utf16> := if |pieces| >= 2 then Some(pieces[1]) else None;
    if !IsTwoDigits(month) || year.None? || !IsTwoDigits(year.value) then false
    else
      var monthNumber := TwoDigitValue(month);
      var yearNumber := TwoDigitValue(year.value);
      if monthNumber < 1 || monthNumber > 12 || yearNumber < currentYear then false
      else if yearNumber == currentYear && monthNumber < currentMonth then false
      else true
  }

  /** On "MM/YY" the check accepts exactly a month 1..12 that is not before the
      current month; anything after a second "/" is ignored. */
  lemma FormattedExpiry(m: nat, y: nat, tail: Utf16, currentYear: int, currentMonth: int)
    requires m < 100 && y < 100
    requires tail == [] || tail[0] == Slash
    ensures IsExpireDateValid(Pad2(m) + [Slash] + Pad2(y) + tail, currentYear, currentMonth)
            <==> 1 <= m <= 12 && (y > currentYear || (y == currentYear && m >= currentMonth))
  {
    var s := Pad2(m) + [Slash] + Pad2(y) + tail;
    assert s == Pad2(m) + [Slash] + (Pad2(y) + tail);
    SplitAfterPiece(Pad2(m), Pad2(y) + tail);
    SplitFirstPiece(Pad2(y), tail);
    Pad2RoundTrip(m, Pad2(m));
    Pad2RoundTrip(y, Pad2(y));
  }

  /** In the current year the current month is accepted and every earlier
      month is rejected. */
  lemma CurrentYearMonths(m: nat, currentYear: nat, currentMonth: int)
    requires 1 <= m <= 12 && currentYear < 100
    ensures IsExpireDateValid(Pad2(m) + [Slash] + Pad2(currentYear), currentYear, currentMonth)
            <==> m >= currentMonth
  {
    FormattedExpiry(m, currentYear, [], currentYear, currentMonth);
    assert Pad2(m) + [Slash] + Pad2(currentYear) + [] == Pad2(m) + [Slash] + Pad2(currentYear);
  }

  /** A date written without "/" is never accepted. */
  lemma NoSlashRejected(s: Utf16, currentYear: int, currentMonth: int)
    requires Slash !in s
    ensures !IsExpireDateValid(s, currentYear, currentMonth)
  {
    SplitFirstPiece(s, []);
    assert s + [] == s;
    JoinSplit(s);
  }

  // ---------------------------------------------------------------------------
  // Submitting the form

  datatype SubmitOutcome =
    | Rejected                                      // `cartSubmit` rejected: nothing is shown
    | FieldError(field: string, message: string)   // `setError(field, { message })`
    | Alerted(alert: Alert)                         // `triggerAlert(message, success)`
    | Navigated(path: string)                       // `navigate(path)`

  /** `onSubmit(data)`: an invalid card number is reported on the field and
      the cart is not submitted; otherwise the cart is submitted and the
      outcome follows its reply. A rejected submit rejects `onSubmit` with no
      alert and no navigation. The form's field rules, the expiry check
      among them, have already passed when this callback runs; they are not
      part of it. */
  method OnSubmit(cart: Cart.CartStore, cardNumber: Utf16, reply: CartReply) returns (outcome: SubmitOutcome)
    modifies cart
    ensures !LuhnValid(cardNumber) ==>
              outcome == FieldError("cardNumber", "Invalid credit card number") && unchanged(cart)
    ensures LuhnValid(cardNumber) ==>
              cart.items == (if reply.Answered? && reply.response.success then [] else old(cart.items))
              && cart.Valid()
    ensures LuhnValid(cardNumber) ==>
              outcome == if reply.Failed? then Rejected
                         else if reply.response.success then Navigated("/PaymentConfirm")
                         else Alerted(Notice(reply.response.message, false))
  {
    var isValidCardNumber := ValidateLuhnAlgorithm(cardNumber);
    if !isValidCardNumber {
      return FieldError("cardNumber", "Invalid credit card number");
    }
    var response := cart.CartSubmit(reply);
    if response.None? {
      return Rejected;
    }
    if !response.value.success {
      outcome := Alerted(Notice(response.value.message, response.value.success));
    } else {
      outcome := Navigated("/PaymentConfirm");
    }
  }
}
