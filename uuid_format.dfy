/** The `validate` function of the `uuid` package (version 9), which the
    product lookup uses to tell an id from a title or a slug. */
module UuidFormat {
  import opened AsciiText

  const NilUuid: string := "00000000-0000-0000-0000-000000000000"

  predicate IsHexDigit(c: char)
  {
    '0' <= c <= '9' || 'a' <= c <= 'f' || 'A' <= c <= 'F'
  }

  predicate IsDashPosition(i: int)
  {
    i == 8 || i == 13 || i == 18 || i == 23
  }

  /** Character `i` of the 8-4-4-4-12 layout: a dash between groups, a
      hexadecimal digit elsewhere. */
  predicate CanonicalAt(s: string, i: int)
    requires 0 <= i < |s|
  {
    if IsDashPosition(i) then s[i] == '-' else IsHexDigit(s[i])
  }

  /** The canonical 8-4-4-4-12 hexadecimal form, in either case, of a UUID
      of version 1 to 5 with the RFC 4122 variant, or the nil UUID. */
  predicate IsUuid(s: string)
  {
    || s == NilUuid
    || (&& |s| == 36
        && (forall i :: 0 <= i < 36 ==> CanonicalAt(s, i))
        && '1' <= s[14] <= '5'
        && s[19] in "89abAB")
  }

  /** The check ignores case, as the `i` flag of the package's pattern says. */
  lemma IsUuidIgnoresCase(s: string)
    ensures IsUuid(Upper(s)) <==> IsUuid(s)
  {
    NilUuidIgnoresCase(s);
    var u := Upper(s);
    if |s| == 36 {
      forall i | 0 <= i < 36
        ensures CanonicalAt(u, i) <==> CanonicalAt(s, i)
      {
        UpperCharKeepsUuidClasses(s[i]);
      }
      UpperCharKeepsUuidClasses(s[14]);
      UpperCharKeepsUuidClasses(s[19]);
    }
  }

  lemma NilUuidIgnoresCase(s: string)
    ensures Upper(s) == NilUuid <==> s == NilUuid
  {
    var u := Upper(s);
    if |s| == |NilUuid| {
      forall i | 0 <= i < |s|
        ensures u[i] == NilUuid[i] <==> s[i] == NilUuid[i]
      {
        assert u[i] == UpperChar(s[i]);
        assert NilUuid[i] == '0' || NilUuid[i] == '-';
        UpperCharKeepsUuidClasses(s[i]);
      }
    }
  }

  lemma UpperCharKeepsUuidClasses(c: char)
    ensures UpperChar(c) == '-' <==> c == '-'
    ensures UpperChar(c) == '0' <==> c == '0'
    ensures IsHexDigit(UpperChar(c)) <==> IsHexDigit(c)
    ensures '1' <= UpperChar(c) <= '5' <==> '1' <= c <= '5'
    ensures UpperChar(c) in "89abAB" <==> c in "89abAB"
  {
  }
}
