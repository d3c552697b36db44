/** The display order of a seat map: by row number, then by column. */
module SeatRows {
  import opened Entities

  predicate IsDigit(c: char) {
    '0' <= c <= '9'
  }

  ghost predicate Digits(text: string) {
    forall i :: 0 <= i < |text| ==> IsDigit(text[i])
  }

  function DigitOf(c: char): (d: int)
    ensures IsDigit(c) ==> 0 <= d < 10
  {
    c as int - '0' as int
  }

  /** The number that digits write. */
  function Value(digits: string): int {
    if digits == "" then 0 else 10 * Value(digits[..|digits| - 1]) + DigitOf(digits[|digits| - 1])
  }

  function LeadingDigits(text: string): (n: nat)
    ensures n <= |text|
  {
    if text == "" || !IsDigit(text[0]) then 0 else 1 + LeadingDigits(text[1..])
  }

  type Key = (int, string)

  /** The row number and the rest of a seat id; an id without a number is all column. */
  function RowColumn(text: string): Key {
    var n := LeadingDigits(text);
    if n == 0 then (0, text) else (Value(text[..n]), text[n..])
  }

  /** The leading digits are the longest part at the front made of digits. */
  lemma {:induction false} LeadingDigitsAre(text: string, n: nat)
    requires n <= |text|
    ensures LeadingDigits(text) == n <==> Digits(text[..n]) && (n < |text| ==> !IsDigit(text[n]))
  {
    if text != "" && IsDigit(text[0]) {
      if n == 0 {
      } else {
        LeadingDigitsAre(text[1..], n - 1);
        assert text[1..][..n - 1] == text[..n][1..];
        assert Digits(text[..n]) <==> Digits(text[..n][1..]) by {
          assert forall i :: 0 < i < n ==> text[..n][i] == text[..n][1..][i - 1];
        }
      }
    } else if text != "" && n > 0 {
      assert text[..n][0] == text[0];
    }
  }

  method SplitRowColumn(text: string) returns (key: Key)
    ensures key == RowColumn(text)
  {
    var digits := "";
    var i := 0;
    while i < |text| && IsDigit(text[i])
      invariant 0 <= i <= |text|
      invariant digits == text[..i] && Digits(digits)
    {
      digits := digits + [text[i]];
      i := i + 1;
    }
    LeadingDigitsAre(text, i);
    if digits == "" {
      return (0, text);
    }
    return (Value(digits), text[i..]);
  }

  /** The decimal writing of a number. */
  function Decimal10(n: nat): string {
    if n < 10 then [('0' as int + n) as char] else Decimal10(n / 10) + [('0' as int + n % 10) as char]
  }

  lemma {:induction false} Decimal10IsValue(n: nat)
    ensures Decimal10(n) != "" && Digits(Decimal10(n)) && Value(Decimal10(n)) == n
  {
    if n < 10 {
      assert Decimal10(n)[..0] == "";
    } else {
      Decimal10IsValue(n / 10);
      var front, last := Decimal10(n / 10), ('0' as int + n % 10) as char;
      assert (front + [last])[..|front|] == front;
    }
  }

  /** A row number and a column that does not start with a digit are read back from the
      id that writes one after the other. */
  lemma RowColumnRoundTrip(row: nat, column: string)
    requires column == "" || !('0' <= column[0] <= '9')
    ensures RowColumn(Decimal10(row) + column) == (row, column)
  {
    Decimal10IsValue(row);
    var digits := Decimal10(row);
    var text := digits + column;
    assert text[..|digits|] == digits && text[|digits|..] == column;
    LeadingDigitsAre(text, |digits|);
  }

  // ---- The order

  function TextAtMost(a: string, b: string): bool {
    if a == "" then true
    else if b == "" then false
    else a[0] < b[0] || (a[0] == b[0] && TextAtMost(a[1..], b[1..]))
  }

  predicate KeyAtMost(a: Key, b: Key) {
    a.0 < b.0 || (a.0 == b.0 && TextAtMost(a.1, b.1))
  }

  lemma {:induction false} TextTotal(a: string, b: string)
    ensures TextAtMost(a, b) || TextAtMost(b, a)
    ensures TextAtMost(a, b) && TextAtMost(b, a) ==> a == b
  {
    if a != "" && b != "" {
      TextTotal(a[1..], b[1..]);
      assert a == [a[0]] + a[1..] && b == [b[0]] + b[1..];
    }
  }

  lemma {:induction false} TextTransitive(a: string, b: string, c: string)
    requires TextAtMost(a, b) && TextAtMost(b, c)
    ensures TextAtMost(a, c)
  {
    if a != "" && b != "" && c != "" && a[0] == b[0] == c[0] {
      TextTransitive(a[1..], b[1..], c[1..]);
    }
  }

  /** Rows come in the order of their numbers, not of their writing: row 2 before row 10. */
  lemma RowsInOrder(m: nat, n: nat, c: string, d: string)
    requires m < n && (c == "" || !('0' <= c[0] <= '9')) && (d == "" || !('0' <= d[0] <= '9'))
    ensures KeyAtMost(RowColumn(Decimal10(m) + c), RowColumn(Decimal10(n) + d))
    ensures !KeyAtMost(RowColumn(Decimal10(n) + d), RowColumn(Decimal10(m) + c))
  {
    RowColumnRoundTrip(m, c);
    RowColumnRoundTrip(n, d);
  }

  /** An id without a leading digit is all column, in front of every numbered row but row 0. */
  lemma NoRow(text: string)
    requires text == "" || !('0' <= text[0] <= '9')
    ensures RowColumn(text) == (0, text)
  {
  }

  /** The texts agree up to the position, where the one has the smaller character. */
  ghost predicate SmallerAt(a: string, b: string, k: nat) {
    k < |a| && k < |b| && a[..k] == b[..k] && a[k] < b[k]
  }

  lemma SmallerLater(a: string, b: string, k: nat)
    requires a != "" && b != "" && a[0] == b[0]
    ensures SmallerAt(a, b, k + 1) <==> SmallerAt(a[1..], b[1..], k)
    ensures !SmallerAt(a, b, 0)
    ensures a <= b <==> a[1..] <= b[1..]
  {
    assert a == [a[0]] + a[1..] && b == [b[0]] + b[1..];
    if k < |a[1..]| && k < |b[1..]| {
      assert a[..k + 1] == [a[0]] + a[1..][..k] && b[..k + 1] == [b[0]] + b[1..][..k];
      assert a[..k + 1][1..] == a[1..][..k] && b[..k + 1][1..] == b[1..][..k];
    }
  }

  lemma SmallerFirst(a: string, b: string)
    requires a != "" && b != "" && a[0] != b[0]
    ensures (exists k :: SmallerAt(a, b, k)) <==> a[0] < b[0]
  {
    if a[0] < b[0] {
      assert SmallerAt(a, b, 0);
    } else if k: nat :| SmallerAt(a, b, k) {
      if k > 0 {
        SmallerAgrees(a, b, k);
      }
    }
  }

  lemma SmallerAgrees(a: string, b: string, k: nat)
    requires k > 0 && SmallerAt(a, b, k)
    ensures a[0] == b[0]
  {
    assert a[..k][0] == b[..k][0];
  }

  /** Columns come in the order of their first difference, a shorter one before its continuations. */
  lemma {:induction false} ColumnsInOrder(a: string, b: string)
    ensures TextAtMost(a, b) <==> a <= b || exists k :: SmallerAt(a, b, k)
  {
    if a != "" && b != "" {
      if a[0] == b[0] {
        ColumnsInOrder(a[1..], b[1..]);
        hide SmallerAt;
        SmallerLater(a, b, 0);
        if k: nat :| SmallerAt(a, b, k) {
          SmallerLater(a, b, k - 1);
        }
        if k: nat :| SmallerAt(a[1..], b[1..], k) {
          SmallerLater(a, b, k);
        }
      } else {
        SmallerFirst(a, b);
      }
    }
  }

  function KeyOf(seat: SeatId): Key {
    RowColumn(seat.value)
  }

  lemma KeyTotal(a: Key, b: Key)
    ensures KeyAtMost(a, b) || KeyAtMost(b, a)
    ensures KeyAtMost(a, b) && KeyAtMost(b, a) ==> a == b
  {
    TextTotal(a.1, b.1);
  }

  lemma KeyTransitive(a: Key, b: Key, c: Key)
    requires KeyAtMost(a, b) && KeyAtMost(b, c)
    ensures KeyAtMost(a, c)
  {
    if a.0 == b.0 == c.0 {
      TextTransitive(a.1, b.1, c.1);
    }
  }

  predicate RowOrdered(seats: seq<SeatId>) {
    forall i, j :: 0 <= i < j < |seats| ==> KeyAtMost(KeyOf(seats[i]), KeyOf(seats[j]))
  }

  /** In front of the first seat that comes after it. */
  method PlaceSeat(seats: seq<SeatId>, seat: SeatId) returns (placed: seq<SeatId>)
    requires RowOrdered(seats)
    ensures RowOrdered(placed) && multiset(placed) == multiset(seats) + multiset{seat}
  {
    hide KeyAtMost, KeyOf;
    var i := 0;
    while i < |seats| && KeyAtMost(KeyOf(seats[i]), KeyOf(seat))
      invariant 0 <= i <= |seats|
      invariant forall k :: 0 <= k < i ==> KeyAtMost(KeyOf(seats[k]), KeyOf(seat))
    {
      i := i + 1;
    }
    forall k | i <= k < |seats| ensures KeyAtMost(KeyOf(seat), KeyOf(seats[k])) {
      KeyTotal(KeyOf(seat), KeyOf(seats[i]));
      if i < k {
        KeyTransitive(KeyOf(seat), KeyOf(seats[i]), KeyOf(seats[k]));
      }
    }
    placed := seats[..i] + [seat] + seats[i..];
    assert seats == seats[..i] + seats[i..];
  }

  method OrderSeats(cabin: set<SeatId>) returns (seats: seq<SeatId>)
    ensures RowOrdered(seats) && multiset(seats) == multiset(cabin)
  {
    var remaining := cabin;
    seats := [];
    while remaining != {}
      invariant remaining <= cabin && RowOrdered(seats)
      invariant multiset(seats) == multiset(cabin - remaining)
      decreases |remaining|
    {
      var seat :| seat in remaining;
      seats := PlaceSeat(seats, seat);
      assert cabin - (remaining - {seat}) == (cabin - remaining) + {seat};
      remaining := remaining - {seat};
    }
    assert cabin - {} == cabin;
  }

  /** No two seats of the list share a row and column. */
  ghost predicate KeysDiffer(seats: seq<SeatId>) {
    forall x, y :: x in seats && y in seats && KeyOf(x) == KeyOf(y) ==> x == y
  }

  /** The order is unique when no two seats share a row and column. */
  lemma {:induction false} OrderIsUnique(a: seq<SeatId>, b: seq<SeatId>)
    requires RowOrdered(a) && RowOrdered(b) && multiset(a) == multiset(b) && KeysDiffer(a)
    ensures a == b
    decreases |a|
  {
    hide KeysDiffer, RowOrdered;
    assert |a| == |multiset(a)| == |multiset(b)| == |b|;
    if a != [] {
      var n := |a| - 1;
      SameLast(a, b);
      AllButLast(a);
      AllButLast(b);
      OrderIsUnique(a[..n], b[..n]);
    }
  }

  lemma AllButLast(a: seq<SeatId>)
    requires a != [] && RowOrdered(a)
    ensures var n := |a| - 1;
            RowOrdered(a[..n]) && multiset(a[..n]) == multiset(a) - multiset{a[n]} && (KeysDiffer(a) ==> KeysDiffer(a[..n]))
            && a == a[..n] + [a[n]]
  {
    hide KeyOf, KeyAtMost;
    assert a == a[..|a| - 1] + [a[|a| - 1]];
  }

  lemma SameLast(a: seq<SeatId>, b: seq<SeatId>)
    requires a != [] && b != [] && RowOrdered(a) && RowOrdered(b) && multiset(a) == multiset(b) && KeysDiffer(a)
    ensures a[|a| - 1] == b[|b| - 1]
  {
    hide KeyOf, KeyAtMost, RowOrdered;
    var p, q := a[|a| - 1], b[|b| - 1];
    assert p in multiset(a) && q in multiset(b);
    LastIsLatest(a, q);
    LastIsLatest(b, p);
    KeyTotal(KeyOf(p), KeyOf(q));
  }

  lemma LastIsLatest(seats: seq<SeatId>, seat: SeatId)
    requires RowOrdered(seats) && seats != [] && seat in multiset(seats)
    ensures KeyAtMost(KeyOf(seat), KeyOf(seats[|seats| - 1]))
  {
    hide KeyOf, KeyAtMost;
    var i :| 0 <= i < |seats| && seats[i] == seat;
    KeyTotal(KeyOf(seat), KeyOf(seat));
  }
}
