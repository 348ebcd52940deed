/**
 * Shared vocabulary of the office store model: optional values (Java's
 * nullable references), identifiers, clock readings, 32-bit integers,
 * HTTP outcomes, and the few string operations the resources use.
 */
module Common {

  /** A Java reference that may be null. */
  datatype Option<+T> = None | Some(value: T)

  /** Surrogate keys (Java `Long`); the store never hands out 0 or a negative key. */
  type Id = int

  /** An opaque reading of `LocalDateTime.now()`; the model only observes that it was stored. */
  type Timestamp = int

  /** Java `int` / `Integer`. */
  newtype Int32 = x: int | -0x8000_0000 <= x < 0x8000_0000

  /** Two's-complement wrap-around of Java `int` arithmetic. */
  function Wrap32(x: int): (r: Int32)
    ensures (r as int - x) % 0x1_0000_0000 == 0
    ensures -0x8000_0000 <= x < 0x8000_0000 ==> r as int == x
  {
    ((x + 0x8000_0000) % 0x1_0000_0000 - 0x8000_0000) as Int32
  }

  /** The HTTP status a resource method answers with, carrying its entity text where it has one. */
  datatype Status =
    | Ok
    | Created
    | NoContent
    | BadRequest(message: string)
    | NotFound(body: Option<string>)
    | Conflict(message: string)
    | InternalServerError(message: string)
      /** The storage layer rejected the write (a NOT NULL column); the unit of work is rolled back. */
    | Aborted
  {
    predicate IsSuccess() {
      Ok? || Created? || NoContent?
    }
  }

  /** A non-empty set has a member (so that `:|` can pick one). */
  lemma HasElement(x: set<Id>)
    requires x != {}
    ensures exists e :: e in x
  {
    if forall e :: e !in x {
      assert false;
    }
  }

  /** No key occurs twice. */
  predicate Distinct(s: seq<Id>) {
    forall i, j :: 0 <= i < j < |s| ==> s[i] != s[j]
  }

  /** A duplicate-free listing of exactly the keys `ks`: an order in which the database returns rows. */
  predicate IsListing(order: seq<Id>, ks: set<Id>) {
    && Distinct(order)
    && (forall i :: 0 <= i < |order| ==> order[i] in ks)
    && (forall k | k in ks :: k in order)
  }

  /** A status together with the entity a read operation returns on success. */
  datatype Response<T> = Response(status: Status, entity: Option<T>)

  /** Java's `s.trim().isEmpty()`: `trim` strips every character at or below U+0020. */
  predicate Blank(s: string) {
    forall i :: 0 <= i < |s| ==> s[i] <= ' '
  }

  /** A required text field: not null and not blank. */
  predicate Present(s: Option<string>) {
    s.Some? && !Blank(s.value)
  }

  /** Lower-case mapping used by `lower(...)` in queries (ASCII letters only). */
  function ToLower(c: char): (l: char)
    ensures 'A' <= c <= 'Z' ==> 'a' <= l <= 'z'
    ensures !('A' <= c <= 'Z') ==> l == c
  {
    if 'A' <= c <= 'Z' then (c as int + 32) as char else c
  }

  function Lower(s: string): (l: string)
    ensures |l| == |s|
    ensures forall i :: 0 <= i < |s| ==> l[i] == ToLower(s[i])
  {
    if s == [] then [] else [ToLower(s[0])] + Lower(s[1..])
  }

  /** `s LIKE '%t%'` with no wildcard characters inside `t`. */
  predicate ContainsSubstring(s: string, t: string) {
    exists i :: 0 <= i <= |s| - |t| && OccursAt(s, t, i)
  }

  predicate OccursAt(s: string, t: string, i: nat)
    requires i + |t| <= |s|
  {
    s[i..i + |t|] == t
  }

  function DigitChar(d: nat): char
    requires d < 10
  {
    "0123456789"[d]
  }

  /** Decimal rendering, as Java's string concatenation prints a non-negative number. */
  function NatToString(n: nat): (s: string)
    ensures |s| > 0
    ensures forall i :: 0 <= i < |s| ==> '0' <= s[i] <= '9'
    decreases n
  {
    if n < 10 then [DigitChar(n)] else NatToString(n / 10) + [DigitChar(n % 10)]
  }

  /** Decimal rendering of any integer, with a leading '-' when negative. */
  function IntToString(i: int): string {
    if i < 0 then "-" + NatToString(-i) else NatToString(i)
  }
}
