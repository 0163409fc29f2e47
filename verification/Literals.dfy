/**
  From the digits of an integer literal to the constant of its node. The lexer's pattern
  has no sign, but a 32-bit literal goes through a 64-bit conversion that saturates and a
  cast that does not, so what it stands for can be negative.
 */
module Literals {
  import opened Values
  import opened Registers
  import opened Checking

  const INTMAX_MAX := 0x7FFF_FFFF_FFFF_FFFF
  const UINTMAX_MAX := 0xFFFF_FFFF_FFFF_FFFF

  predicate IsInteger(text: string) {
    text != "" && forall i :: 0 <= i < |text| ==> '0' <= text[i] <= '9'
  }

  function Decimal(text: string): nat
    requires forall i :: 0 <= i < |text| ==> '0' <= text[i] <= '9'
  {
    if text == "" then 0 else 10 * Decimal(text[..|text| - 1]) + (text[|text| - 1] as int - '0' as int)
  }

  function AtMost(limit: nat, n: nat): nat {
    if n > limit then limit else n
  }

  /** The constant of a literal of the type; booleans are spelled otherwise. */
  function ReadLiteral(ty: Ty, text: string): int
    requires ty != Bool && IsInteger(text)
  {
    var n := Decimal(text);
    match ty
    case Int32 => Wrap(Int32, AtMost(INTMAX_MAX, n))
    case UInt32 => Wrap(UInt32, AtMost(UINTMAX_MAX, n))
    case Int64 => AtMost(INTMAX_MAX, n)
    case UInt64 => AtMost(UINTMAX_MAX, n)
  }

  /**
    The register holds the constant exactly when the digits of a signed 32-bit literal are
    not among the last 2^15 numbers before a multiple of 2^32. Literals of the other types
    always arrive.
   */
  lemma LiteralLoadable(ty: Ty, text: string)
    requires ty != Bool && IsInteger(text)
    ensures InRange(ty, ReadLiteral(ty, text))
    ensures Loadable(ty, ReadLiteral(ty, text)) <==>
              ty != Int32 || AtMost(INTMAX_MAX, Decimal(text)) % TWO_32 < TWO_32 - TWO_16 / 2
  {
    hide Decimal;
  }

  /** The number that was written is the constant exactly when the type has it. */
  lemma LiteralExact(ty: Ty, text: string)
    requires ty != Bool && IsInteger(text)
    ensures ReadLiteral(ty, text) == Decimal(text) <==> InRange(ty, Decimal(text))
  {
    hide Decimal;
  }

  /** A literal without a sign whose register ends up with 65535 instead of -1. */
  lemma NegativeLiteral()
    ensures IsInteger("4294967295") && ReadLiteral(Int32, "4294967295") == -1
    ensures FitsInBytecode(Int32, -1) && !Loadable(Int32, -1)
    ensures Holds(FromRaw64(-1 % TWO_16), Int32, TWO_16 - 1)
  {
    hide Decimal;
    FiveDigits();
    var text := Longer("42949", 42949, '6', 6);
    text := Longer(text, 429496, '7', 7);
    text := Longer(text, 4294967, '2', 2);
    text := Longer(text, 42949672, '9', 9);
    text := Longer(text, 429496729, '5', 5);
    assert text == "4294967295";
  }

  lemma FiveDigits()
    ensures IsInteger("42949") && Decimal("42949") == 42949
  {
    assert Decimal("") == 0;
    hide Decimal;
    var text := Longer("", 0, '4', 4);
    text := Longer(text, 4, '2', 2);
    text := Longer(text, 42, '9', 9);
    text := Longer(text, 429, '4', 4);
    text := Longer(text, 4294, '9', 9);
    assert text == "42949";
  }

  lemma Longer(text: string, n: nat, c: char, digit: nat) returns (more: string)
    requires (text == "" || IsInteger(text)) && Decimal(text) == n && '0' <= c <= '9' && digit == c as int - '0' as int
    ensures more == text + [c] && IsInteger(more) && Decimal(more) == 10 * n + digit
  {
    more := text + [c];
    assert more[..|text|] == text;
  }
}
