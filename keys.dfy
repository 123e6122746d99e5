/**
  The uniqueness index is keyed by the string `volunteer-projectId`, built
  from the principal, a dash and the decimal rendering of the project id.
  The model keys it by a pair instead. This module renders integers in
  decimal and proves that, against any stored key (whose project id is
  positive), the string a lookup builds matches exactly when `LookupKey`
  gives the stored pair, so the pair-keyed model answers as the string-keyed
  registry does.
 */
module KeyStrings {
  import opened Registry

  function DigitChar(d: int): char
    requires 0 <= d < 10
  {
    "0123456789"[d]
  }

  /** The decimal digits of `n`, most significant first. */
  function Digits(n: nat): string
    decreases n
  {
    if n < 10 then [DigitChar(n)] else Digits(n / 10) + [DigitChar(n % 10)]
  }

  function NumberString(p: int): string {
    if p < 0 then "-" + Digits(-p) else Digits(p)
  }

  /** The string the registry builds from a volunteer and a project id. */
  function KeyString(volunteer: Principal, projectId: int): string {
    volunteer + "-" + NumberString(projectId)
  }

  /** The string key a stored record is indexed under. */
  function RecordKeyString(c: Contribution): string {
    KeyString(c.volunteer, c.projectId)
  }

  lemma {:induction false} DigitsHaveNoDash(n: nat)
    ensures |Digits(n)| >= 1
    ensures '-' !in Digits(n)
    decreases n
  {
    if n >= 10 {
      DigitsHaveNoDash(n / 10);
    }
  }

  lemma DigitCharInjective(a: int, b: int)
    requires 0 <= a < 10 && 0 <= b < 10
    requires DigitChar(a) == DigitChar(b)
    ensures a == b
  {
  }

  /** Decimal rendering is one-to-one. */
  lemma {:induction false} DigitsInjective(a: nat, b: nat)
    requires Digits(a) == Digits(b)
    ensures a == b
    decreases a
  {
    if a < 10 && b < 10 {
      DigitCharInjective(a, b);
    } else if a < 10 {
      DigitsHaveNoDash(b / 10);
      assert false;
    } else if b < 10 {
      DigitsHaveNoDash(a / 10);
      assert false;
    } else {
      var da, db := Digits(a), Digits(b);
      assert da[|da| - 1] == DigitChar(a % 10) && db[|db| - 1] == DigitChar(b % 10);
      DigitCharInjective(a % 10, b % 10);
      assert Digits(a / 10) == da[..|da| - 1] == db[..|db| - 1] == Digits(b / 10);
      DigitsInjective(a / 10, b / 10);
    }
  }

  /** If two splits of one string at a dash differ, the longer tail holds the other split's dash. */
  lemma LongerTailHoldsDash(a: string, d: string, a': string, d': string)
    requires a + "-" + d == a' + "-" + d'
    requires |d| < |d'|
    ensures '-' in d'
  {
    var x := a + "-" + d;
    assert x[|a|] == '-';
    assert x[|a|] == d'[|a| - |a'| - 1];
  }

  /** A string whose tail holds no dash splits uniquely at its last dash. */
  lemma SplitAtLastDash(a: string, d: string, a': string, d': string)
    requires '-' !in d && '-' !in d'
    requires a + "-" + d == a' + "-" + d'
    ensures a == a' && d == d'
  {
    var x := a + "-" + d;
    if |d| < |d'| {
      LongerTailHoldsDash(a, d, a', d');
      assert false;
    } else if |d'| < |d| {
      LongerTailHoldsDash(a', d', a, d);
      assert false;
    }
    assert a == x[..|a|] == a';
    assert d == x[|a| + 1..] == d';
  }

  /**
    Against a stored key (positive project id), the string a lookup builds
    matches exactly when `LookupKey` yields that key's pair.
   */
  lemma LookupKeyMatchesKeyString(volunteer: Principal, projectId: int, stored: VolunteerKey)
    requires stored.1 > 0
    ensures KeyString(volunteer, projectId) == KeyString(stored.0, stored.1)
            <==> LookupKey(volunteer, projectId) == stored
  {
    var (v', p') := stored;
    DigitsHaveNoDash(p');
    if projectId < 0 {
      DigitsHaveNoDash(-projectId);
      assert KeyString(volunteer, projectId) == (volunteer + "-") + "-" + Digits(-projectId);
      if KeyString(volunteer, projectId) == KeyString(v', p') {
        SplitAtLastDash(volunteer + "-", Digits(-projectId), v', Digits(p'));
        DigitsInjective(-projectId, p');
      }
    } else {
      DigitsHaveNoDash(projectId);
      if KeyString(volunteer, projectId) == KeyString(v', p') {
        SplitAtLastDash(volunteer, Digits(projectId), v', Digits(p'));
        DigitsInjective(projectId, p');
      }
    }
  }

  /** Two logged pairs (positive project ids) have the same string key only if they are the same pair. */
  lemma StoredKeyStringsAreDistinct(k1: VolunteerKey, k2: VolunteerKey)
    requires k1.1 > 0 && k2.1 > 0
    requires KeyString(k1.0, k1.1) == KeyString(k2.0, k2.1)
    ensures k1 == k2
  {
    LookupKeyMatchesKeyString(k1.0, k1.1, k2);
  }
}
