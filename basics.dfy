/** Scalar types shared by every table, the clock parameter, and the string helpers the source relies on. */
module Basics {

  /** `Long` identity column values; IDENTITY sequences hand out 1, 2, 3, ... */
  type Id = nat
  /** The id of the acting user (`Long createdBy`, `changedBy`, `generatedBy`). */
  type UserId = nat
  /** A `BigDecimal` amount at the columns' scale of 2, counted in minor units; arithmetic is exact. */
  type Money = int
  /** `LocalDateTime` as an instant. A fresh Java object holds `null` here; the model holds 0 until a save hook sets it. */
  type DateTime = int
  /** `LocalDate` as a day number. */
  type Date = int
  /** The text Jackson's `ObjectMapper.writeValueAsString` produces. */
  type Json = string

  /** What `LocalDateTime.now()` and `LocalDate.now()` return during one call. */
  datatype Clock = Clock(now: DateTime, today: Date)

  predicate StartsWith(s: string, prefix: string) {
    |prefix| <= |s| && s[..|prefix|] == prefix
  }

  /** `String.trim()`, first half: drops every leading char whose code is at most that of ' '. */
  function TrimLeading(s: string): (r: string)
    ensures |r| <= |s| && r == s[|s| - |r|..]
    ensures r == [] || r[0] > ' '
    ensures forall i :: 0 <= i < |s| - |r| ==> s[i] <= ' '
  {
    if |s| == 0 || s[0] > ' ' then s else TrimLeading(s[1..])
  }

  /** `String.trim()`, second half: drops every trailing char whose code is at most that of ' '. */
  function TrimTrailing(s: string): (r: string)
    ensures |r| <= |s| && r == s[..|r|]
    ensures r == [] || r[|r| - 1] > ' '
    ensures forall i :: |r| <= i < |s| ==> s[i] <= ' '
  {
    if |s| == 0 || s[|s| - 1] > ' ' then s else TrimTrailing(s[..|s| - 1])
  }

  /** `String.trim()`. It is empty exactly when every char of the string is at most ' '. */
  function Trim(s: string): (r: string)
    ensures |r| == 0 <==> forall i :: 0 <= i < |s| ==> s[i] <= ' '
  {
    var t := TrimLeading(s);
    var u := TrimTrailing(t);
    assert |u| == 0 ==> forall i :: 0 <= i < |s| ==> s[i] <= ' ' by {
      if |u| == 0 {
        assert t == [];
      }
    }
    u
  }

  /** The decimal digit for `d`. */
  function Digit(d: nat): (c: char)
    requires d < 10
    ensures '0' <= c <= '9' && c as int - '0' as int == d
  {
    ('0' as int + d) as char
  }

  /** `Long.toString` of a non-negative value: its decimal digits without leading zeros. */
  function NatToString(n: nat): (r: string)
    ensures |r| >= 1
    ensures forall i :: 0 <= i < |r| ==> '0' <= r[i] <= '9'
    ensures (n < 10) == (|r| == 1)
  {
    if n < 10 then [Digit(n)] else NatToString(n / 10) + [Digit(n % 10)]
  }

  /** Distinct numbers print differently, so a string built from an id identifies that id. */
  lemma {:induction false} NatToStringInjective(a: nat, b: nat)
    requires NatToString(a) == NatToString(b)
    ensures a == b
  {
    var sa, sb := NatToString(a), NatToString(b);
    if a >= 10 && b >= 10 {
      assert sa[|sa| - 1] == sb[|sb| - 1];
      assert Digit(a % 10) == Digit(b % 10);
      assert NatToString(a / 10) == sa[..|sa| - 1] == sb[..|sb| - 1] == NatToString(b / 10);
      NatToStringInjective(a / 10, b / 10);
    } else if a < 10 && b < 10 {
      assert Digit(a) == sa[0] == sb[0] == Digit(b);
    }
  }
}
