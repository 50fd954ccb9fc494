/** Shared vocabulary of the storefront model: optional values, JavaScript
    numbers that may be NaN, UTF-16 text, `String.prototype.trim`, and the
    shapes of the replies the backend sends. */
module Common {

  datatype Option<+T> = None | Some(value: T)

  /** A JavaScript number restricted to what the core computes with: an
      integer, or NaN (what `parseInt` yields when there are no digits). */
  datatype JsInt = Int(value: int) | NaN

  /** `a + b` on JavaScript numbers: NaN is absorbing. */
  function Plus(a: JsInt, b: JsInt): (r: JsInt)
    ensures r.Int? <==> a.Int? && b.Int?
    ensures r.Int? ==> r.value == a.value + b.value
  {
    if a.Int? && b.Int? then Int(a.value + b.value) else NaN
  }

  /** The logged-in user held in the user context (`username`); `None` stands
      for both `null` and `undefined`. */
  datatype User = User(id: int)

  /** `{ success, message }`, the body of every cart endpoint reply. */
  datatype Response = Response(success: bool, message: string)

  /** How a request of the cart repository (src/data/cartRepository.js)
      settles: the server answers with a `{ success, message }` body, or axios
      rejects (a status outside 2xx, or no answer) and so does the `await`
      of every caller, none of which catches. */
  datatype CartReply = Answered(response: Response) | Failed

  /** A `triggerAlert(message, isSuccess, duration, actions)` call of the alert
      hook (src/hooks/useAlert.js); `redirect` is the route the `actions`
      callback navigates to once the alert has been shown for `duration` ms. */
  datatype Alert = Alert(message: string, isSuccess: bool, duration: nat, redirect: Option<string>)

  /** `triggerAlert(message, isSuccess)`, with the default duration 4000. */
  function Notice(message: string, isSuccess: bool): Alert
  {
    Alert(message, isSuccess, 4000, None)
  }

  /** The Bootstrap class the alert is shown with. */
  function AlertClass(isSuccess: bool): string
  {
    if isSuccess then "alert alert-success" else "alert alert-danger"
  }

  /** One UTF-16 code unit: JavaScript strings are sequences of these. */
  newtype CodeUnit = x: int | 0 <= x < 0x1_0000

  type Utf16 = seq<CodeUnit>

  /** UTF-16 encoding of a Dafny string (a sequence of Unicode scalar values). */
  function Units(s: string): (u: Utf16)
    ensures |u| >= |s|
  {
    if s == [] then []
    else
      var v := s[0] as int;
      (if v < 0x1_0000 then [v as CodeUnit]
       else [(0xD800 + (v - 0x1_0000) / 0x400) as CodeUnit,
             (0xDC00 + (v - 0x1_0000) % 0x400) as CodeUnit])
      + Units(s[1..])
  }

  /** A string of characters from the Basic Multilingual Plane is encoded one
      code unit per character. */
  lemma {:induction false} UnitsOfBmp(s: string)
    requires forall i :: 0 <= i < |s| ==> s[i] as int < 0x1_0000
    ensures |Units(s)| == |s|
    ensures forall i :: 0 <= i < |s| ==> Units(s)[i] as int == s[i] as int
  {
    if s != [] {
      UnitsOfBmp(s[1..]);
    }
  }

  /** A known encoding of a literal, for the concrete examples. */
  lemma UnitsAre(s: string, u: Utf16)
    requires |s| == |u|
    requires forall i :: 0 <= i < |s| ==> s[i] as int < 0x1_0000 && u[i] as int == s[i] as int
    ensures Units(s) == u
  {
    UnitsOfBmp(s);
  }

  /** The characters `String.prototype.trim` removes: WhiteSpace and
      LineTerminator of ECMAScript (sections 12.2 and 12.3 of ECMA-262). */
  predicate IsJsWhitespace(c: CodeUnit) {
    c == 0x09 || c == 0x0A || c == 0x0B || c == 0x0C || c == 0x0D || c == 0x20
    || c == 0xA0 || c == 0x1680 || (0x2000 <= c <= 0x200A)
    || c == 0x2028 || c == 0x2029 || c == 0x202F || c == 0x205F
    || c == 0x3000 || c == 0xFEFF
  }

  /** ASCII `[a-zA-Z0-9]`. */
  predicate IsAsciiAlnum(c: CodeUnit) {
    (0x30 <= c <= 0x39) || (0x41 <= c <= 0x5A) || (0x61 <= c <= 0x7A)
  }

  predicate AllWhitespace(s: Utf16) {
    forall i :: 0 <= i < |s| ==> IsJsWhitespace(s[i])
  }

  function TrimStart(s: Utf16): (r: Utf16)
    ensures |r| <= |s| && r == s[|s| - |r|..]
    ensures r == [] <==> AllWhitespace(s)
    ensures r != [] ==> !IsJsWhitespace(r[0])
  {
    if s == [] then []
    else if IsJsWhitespace(s[0]) then
      var r := TrimStart(s[1..]);
      assert AllWhitespace(s[1..]) ==> AllWhitespace(s) by {
        if AllWhitespace(s[1..]) {
          forall i | 0 <= i < |s| ensures IsJsWhitespace(s[i]) {
            if i > 0 { assert s[i] == s[1..][i - 1]; }
          }
        }
      }
      r
    else s
  }

  function TrimEnd(s: Utf16): (r: Utf16)
    ensures |r| <= |s| && r == s[..|r|]
    ensures r == [] <==> AllWhitespace(s)
    ensures r != [] ==> !IsJsWhitespace(r[|r| - 1])
  {
    if s == [] then []
    else if IsJsWhitespace(s[|s| - 1]) then
      var r := TrimEnd(s[..|s| - 1]);
      assert AllWhitespace(s[..|s| - 1]) ==> AllWhitespace(s) by {
        if AllWhitespace(s[..|s| - 1]) {
          forall i | 0 <= i < |s| ensures IsJsWhitespace(s[i]) {
            if i < |s| - 1 { assert s[i] == s[..|s| - 1][i]; }
          }
        }
      }
      r
    else s
  }

  /** `String.prototype.trim`: whitespace removed from both ends. */
  function Trim(s: Utf16): (r: Utf16)
    ensures r == [] <==> AllWhitespace(s)
    ensures r != [] ==> !IsJsWhitespace(r[0]) && !IsJsWhitespace(r[|r| - 1])
    ensures |r| <= |s|
  {
    var t := TrimStart(s);
    var r := TrimEnd(t);
    assert r != [] ==> r[0] == t[0];
    r
  }

  /** What `TrimStart` drops is whitespace. */
  lemma {:induction false} TrimStartDropsWhitespace(s: Utf16)
    ensures forall i :: 0 <= i < |s| - |TrimStart(s)| ==> IsJsWhitespace(s[i])
  {
    if s != [] && IsJsWhitespace(s[0]) {
      var rest := s[1..];
      TrimStartDropsWhitespace(rest);
      var n := |rest| - |TrimStart(rest)|;
      assert |s| - |TrimStart(s)| == n + 1;
      forall i | 0 < i <= n ensures IsJsWhitespace(s[i]) {
        assert s[i] == rest[i - 1];
      }
    }
  }

  /** What `TrimEnd` drops is whitespace. */
  lemma {:induction false} TrimEndDropsWhitespace(s: Utf16)
    ensures forall i :: |TrimEnd(s)| <= i < |s| ==> IsJsWhitespace(s[i])
  {
    if s != [] && IsJsWhitespace(s[|s| - 1]) {
      var rest := s[..|s| - 1];
      TrimEndDropsWhitespace(rest);
      forall i | |TrimEnd(rest)| <= i < |rest| ensures IsJsWhitespace(s[i]) {
        assert s[i] == rest[i];
      }
    }
  }

  /** Cutting `k` whitespace units from the front of `s`, giving `t`, and
      then `m` from the back of `t` leaves one stretch of `s` with only
      whitespace around it. */
  lemma CutIsInfix(s: Utf16, k: nat, t: Utf16, m: nat, r: Utf16)
    requires k <= |s| && t == s[k..] && m <= |t|
    requires forall i :: 0 <= i < k ==> IsJsWhitespace(s[i])
    requires forall i :: |t| - m <= i < |t| ==> IsJsWhitespace(t[i])
    requires r == t[..|t| - m]
    ensures exists j :: 0 <= j <= |s| - |r| && r == s[j..j + |r|]
              && AllWhitespace(s[..j]) && AllWhitespace(s[j + |r|..])
  {
    assert r == s[k..k + |r|];
    var u := s[k + |r|..];
    assert AllWhitespace(u) by {
      forall i | 0 <= i < |u| ensures IsJsWhitespace(u[i]) {
        assert u[i] == s[k + |r| + i] == t[|r| + i];
      }
    }
    assert AllWhitespace(s[..k]) by {
      forall i | 0 <= i < k ensures IsJsWhitespace(s[..k][i]) { assert s[..k][i] == s[i]; }
    }
  }

  /** What `Trim` keeps is one stretch of the text, with only whitespace
      before and after it. */
  lemma TrimIsInfix(s: Utf16)
    ensures var r := Trim(s);
            exists k :: 0 <= k <= |s| - |r| && r == s[k..k + |r|]
              && AllWhitespace(s[..k]) && AllWhitespace(s[k + |r|..])
  {
    var t := TrimStart(s);
    TrimStartDropsWhitespace(s);
    TrimEndDropsWhitespace(t);
    CutIsInfix(s, |s| - |t|, t, |t| - |Trim(s)|, Trim(s));
  }

  /** A string that does not start with whitespace loses nothing at the front. */
  lemma TrimStartUnchanged(s: Utf16)
    requires s != [] && !IsJsWhitespace(s[0])
    ensures TrimStart(s) == s
  {
  }

  /** A string that neither starts nor ends with whitespace is its own trim. */
  lemma TrimUnchanged(s: Utf16)
    requires s != [] && !IsJsWhitespace(s[0]) && !IsJsWhitespace(s[|s| - 1])
    ensures Trim(s) == s
  {
  }

  function DigitString(n: nat): (s: string)
    requires n < 10
    ensures |s| == 1 && '0' <= s[0] <= '9'
  {
    ["0123456789"[n]]
  }

  /** The decimal spelling JavaScript gives an integer in a template literal. */
  function NatToString(n: nat): (s: string)
    ensures |s| >= 1
    ensures forall i :: 0 <= i < |s| ==> '0' <= s[i] <= '9'
  {
    if n < 10 then DigitString(n) else NatToString(n / 10) + DigitString(n % 10)
  }

  /** The spelling a `${...}` template gives an integer: a minus sign
      exactly for negative numbers, then decimal digits. */
  function IntToString(n: int): (s: string)
    ensures |s| >= 1
    ensures s[0] == '-' <==> n < 0
    ensures forall i :: (if n < 0 then 1 else 0) <= i < |s| ==> '0' <= s[i] <= '9'
  {
    if n < 0 then "-" + NatToString(-n) else NatToString(n)
  }

  /** Value of a string of ASCII decimal digits, as `Number` reads it. */
  function DecimalValue(s: string): (v: nat)
    requires forall i :: 0 <= i < |s| ==> '0' <= s[i] <= '9'
  {
    if s == [] then 0
    else DecimalValue(s[..|s| - 1]) * 10 + (s[|s| - 1] as int - '0' as int)
  }

  /** Reading back what `NatToString` wrote gives the number again. */
  lemma {:induction false} DecimalValueOfNatToString(n: nat)
    ensures DecimalValue(NatToString(n)) == n
  {
    if n >= 10 {
      var p := NatToString(n / 10);
      var s := p + DigitString(n % 10);
      assert s[..|s| - 1] == p;
      DecimalValueOfNatToString(n / 10);
    }
  }
}
