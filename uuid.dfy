/**
 * The UUID test of the `/status/:id` route: the regular expression
 *   ^[0-9a-f]{8}-[0-9a-f]{4}-[1-5][0-9a-f]{3}-[89ab][0-9a-f]{3}-[0-9a-f]{12}$
 * with the `i` flag. It is an anchored concatenation of single-character
 * classes, so it is modelled as a sequence of classes matched one character
 * at a time.
 */
module Uuid {
  /** The character classes of the expression, already case-insensitive. */
  datatype CharClass = HexDigit | Hyphen | VersionDigit | VariantDigit

  predicate IsHexChar(c: char) {
    '0' <= c <= '9' || 'a' <= c <= 'f' || 'A' <= c <= 'F'
  }

  predicate InClass(c: char, k: CharClass) {
    match k
    case HexDigit => IsHexChar(c)
    case Hyphen => c == '-'
    case VersionDigit => '1' <= c <= '5'
    case VariantDigit => c in "89abAB"
  }

  function Repeat(k: CharClass, n: nat): (p: seq<CharClass>)
    ensures |p| == n && forall i :: 0 <= i < n ==> p[i] == k
  {
    seq(n, _ => k)
  }

  /** The expression, group by group: 8-4-4-4-12 with the version and variant nibbles. */
  const Pattern: seq<CharClass> :=
    Repeat(HexDigit, 8) + [Hyphen] +
    Repeat(HexDigit, 4) + [Hyphen] +
    [VersionDigit] + Repeat(HexDigit, 3) + [Hyphen] +
    [VariantDigit] + Repeat(HexDigit, 3) + [Hyphen] +
    Repeat(HexDigit, 12)

  /** Anchored match (`^...$`) of a concatenation of single-character classes. */
  predicate Matches(s: string, p: seq<CharClass>)
    decreases p
  {
    if p == [] then s == []
    else s != [] && InClass(s[0], p[0]) && Matches(s[1..], p[1..])
  }

  /** `uuidRegex.test(id)`. */
  predicate IsUuid(id: string) {
    Matches(id, Pattern)
  }

  /** A match consumes the whole string, one character per class. */
  lemma {:induction false} MatchesAt(s: string, p: seq<CharClass>)
    ensures Matches(s, p) <==> |s| == |p| && forall i :: 0 <= i < |s| ==> InClass(s[i], p[i])
    decreases p
  {
    if p != [] && s != [] {
      MatchesAt(s[1..], p[1..]);
      if |s| == |p| && (forall i :: 0 <= i < |s| ==> InClass(s[i], p[i])) {
        assert forall i :: 0 <= i < |s| - 1 ==> s[1..][i] == s[i + 1] && p[1..][i] == p[i + 1];
      }
    }
  }

  /** The class the expression puts at each of its 36 positions. */
  lemma PatternAt(i: nat)
    requires i < 36
    ensures |Pattern| == 36
    ensures Pattern[i] ==
      if i == 8 || i == 13 || i == 18 || i == 23 then Hyphen
      else if i == 14 then VersionDigit
      else if i == 19 then VariantDigit
      else HexDigit
  {
  }

  /**
   * The canonical text form of sections 3, 4.1.1 and 4.1.3 of RFC 4122:
   * 36 characters, hyphens at 8, 13, 18 and 23, a version digit 1-5 at 14,
   * a variant digit 8, 9, a or b at 19, hexadecimal digits elsewhere, in
   * either case.
   */
  lemma {:induction false} UuidLayout(id: string)
    ensures IsUuid(id) <==>
      |id| == 36 &&
      id[8] == '-' && id[13] == '-' && id[18] == '-' && id[23] == '-' &&
      '1' <= id[14] <= '5' && id[19] in "89abAB" &&
      forall i :: 0 <= i < 36 && i != 8 && i != 13 && i != 14 && i != 18 && i != 19 && i != 23 ==> IsHexChar(id[i])
  {
    MatchesAt(id, Pattern);
    forall i | 0 <= i < 36 { PatternAt(i); }
  }

  /**
   * No identifier containing an underscore is a UUID; the processor's object
   * ids (`pi_...`, `ch_...`, `re_...`) are therefore always looked up by
   * `payment_intent_id`.
   */
  lemma UnderscoreIsNotUuid(id: string)
    requires '_' in id
    ensures !IsUuid(id)
  {
    UuidLayout(id);
    var k :| 0 <= k < |id| && id[k] == '_';
  }

  /** A lower-case version-4 identifier, as the route's generator mints them, is recognised. */
  lemma VersionFourIsUuid(id: string)
    requires |id| == 36
    requires id[8] == '-' && id[13] == '-' && id[18] == '-' && id[23] == '-'
    requires id[14] == '4' && id[19] in "89ab"
    requires forall i :: 0 <= i < 36 && i != 8 && i != 13 && i != 14 && i != 18 && i != 19 && i != 23 ==>
      '0' <= id[i] <= '9' || 'a' <= id[i] <= 'f'
    ensures IsUuid(id)
  {
    UuidLayout(id);
  }
}
