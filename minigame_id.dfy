/**
 * Identifiers of minigame instances (MinigameID): the type name, the type's
 * registration index, the instance number within the type, and a random
 * unique identifier fixed at construction. A type or instance number of -1
 * marks an identifier that does not belong to a real instance.
 */
module MinigameIDs {

  /** The random unique identifier is an opaque token supplied by the caller. */
  datatype MinigameID = MinigameID(minigameType: string, typeID: int, instanceID: int, uniqueID: nat)

  /** The constructor: the fields are the arguments; the token is the unique identifier. */
  function NewID(minigameType: string, typeID: int, instanceID: int, token: nat): (id: MinigameID)
    ensures id.minigameType == minigameType && id.typeID == typeID && id.instanceID == instanceID
    ensures id.uniqueID == token
  {
    MinigameID(minigameType, typeID, instanceID, token)
  }

  /** A placeholder ID (type or instance number -1) is never real. */
  predicate IsReal(id: MinigameID)
  {
    id.typeID >= 0 && id.instanceID >= 0
  }

  // ---------------------------------------------------------------------
  // Decimal rendering of a Java int, as string concatenation does it
  // ---------------------------------------------------------------------

  function DigitChar(d: nat): char
    requires d < 10
  {
    "0123456789"[d]
  }

  /** Decimal digits of n, most significant first, no leading zeros. */
  function Digits(n: nat): (s: string)
    ensures |s| >= 1
    ensures forall i :: 0 <= i < |s| ==> '0' <= s[i] <= '9'
  {
    if n < 10 then [DigitChar(n)] else Digits(n / 10) + [DigitChar(n % 10)]
  }

  function IntToString(i: int): string
  {
    if i < 0 then "-" + Digits(-i) else Digits(i)
  }

  /** Reading decimal digits back, independently of how they were produced. */
  function ParseDigits(s: string): int
  {
    if s == [] then 0 else ParseDigits(s[..|s| - 1]) * 10 + (s[|s| - 1] as int - '0' as int)
  }

  function ParseInt(s: string): int
  {
    if |s| > 0 && s[0] == '-' then -ParseDigits(s[1..]) else ParseDigits(s)
  }

  lemma {:induction false} DigitsRoundTrip(n: nat)
    ensures ParseDigits(Digits(n)) == n
  {
    if n < 10 {
      DigitValue(n);
      assert [DigitChar(n)][..0] == [];
    } else {
      DigitsRoundTrip(n / 10);
      DigitValue(n % 10);
      var s := Digits(n / 10) + [DigitChar(n % 10)];
      assert s[..|s| - 1] == Digits(n / 10);
      assert ParseDigits(s) == (n / 10) * 10 + n % 10;
    }
  }

  /** The character of digit d reads back as d. */
  lemma DigitValue(d: nat)
    requires d < 10
    ensures DigitChar(d) as int - '0' as int == d
  {
  }

  /** The rendering of an int reads back as that int, so it loses nothing. */
  lemma IntToStringRoundTrip(i: int)
    ensures ParseInt(IntToString(i)) == i
    ensures forall k :: 0 <= k < |IntToString(i)| ==> IntToString(i)[k] != ' '
  {
    var s := IntToString(i);
    if i < 0 {
      var d := Digits(-i);
      DigitsRoundTrip(-i);
      assert s == "-" + d;
      assert s[1..] == d;
      forall k | 0 <= k < |s|
        ensures s[k] != ' '
      {
        if k > 0 {
          assert s[k] == d[k - 1];
        }
      }
    } else {
      DigitsRoundTrip(i);
    }
  }

  /** instanceName(): the type name, a space, then the instance number in decimal. */
  function InstanceName(id: MinigameID): string
  {
    id.minigameType + " " + IntToString(id.instanceID)
  }

  /** The text after the last space of s (all of s when it has none). */
  function AfterLastSpace(s: string): string
  {
    if s == [] then [] else if s[|s| - 1] == ' ' then [] else AfterLastSpace(s[..|s| - 1]) + [s[|s| - 1]]
  }

  /** The text before the last space of s (empty when it has none). */
  function BeforeLastSpace(s: string): string
  {
    if s == [] then [] else if s[|s| - 1] == ' ' then s[..|s| - 1] else BeforeLastSpace(s[..|s| - 1])
  }

  lemma {:induction false} SplitLastSpace(p: string, t: string)
    requires forall k :: 0 <= k < |t| ==> t[k] != ' '
    ensures AfterLastSpace(p + " " + t) == t
    ensures BeforeLastSpace(p + " " + t) == p
    decreases |t|
  {
    var s := p + " " + t;
    if t == [] {
      assert s[..|s| - 1] == p;
    } else {
      assert s[..|s| - 1] == p + " " + t[..|t| - 1];
      SplitLastSpace(p, t[..|t| - 1]);
    }
  }

  /**
   * The instance name determines the type name and the instance number: the
   * number is what follows the last space, since the decimal rendering has no
   * space in it, even when the type name does.
   */
  lemma InstanceNameRoundTrip(id: MinigameID)
    ensures BeforeLastSpace(InstanceName(id)) == id.minigameType
    ensures ParseInt(AfterLastSpace(InstanceName(id))) == id.instanceID
  {
    IntToStringRoundTrip(id.instanceID);
    SplitLastSpace(id.minigameType, IntToString(id.instanceID));
  }

  /** Two identifiers with the same instance name have the same type name and instance number. */
  lemma InstanceNameInjective(a: MinigameID, b: MinigameID)
    requires InstanceName(a) == InstanceName(b)
    ensures a.minigameType == b.minigameType && a.instanceID == b.instanceID
  {
    InstanceNameRoundTrip(a);
    InstanceNameRoundTrip(b);
  }
}
