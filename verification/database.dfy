/** The SQLite persistence layer (app/services/database.py).

    The `startups` table is a sequence of records in rowid order. A record is
    stored as its JSON serialisation and read back with the same validation,
    so a row is modelled by the record itself. `INSERT OR REPLACE` on the
    primary key `id` deletes the row holding that id and inserts a new one,
    which takes a fresh, largest rowid: the new row goes last. */
module Database {
  import opened Wrappers
  import opened Seqs
  import opened Text
  import opened Dicts
  import opened Truthiness
  import opened StartupModel

  /** The rows of the `startups` table, in rowid order. */
  type Store = seq<Startup>

  /** Every row has an id (the primary key is never null) and no two rows
      share one. */
  predicate ValidStore(db: Store) {
    && (forall i :: 0 <= i < |db| ==> db[i].id.Some?)
    && (forall i, j :: 0 <= i < j < |db| ==> db[i].id != db[j].id)
  }

  /** Whether the database file can be opened and written: `connect` itself
      raises when it is unreachable; a failing `INSERT` is caught. */
  datatype StoreMode = Writable | Rejecting | Unreachable

  // ---------------------------------------------------------------------
  // save_startup

  /** A record without a truthy id gets the slug of its name as id. */
  function WithDefaultId(s: Startup): (r: Startup)
    ensures r.id.Some? && r == s.(id := r.id)
    ensures Truthy(s.id) ==> r.id == s.id
    ensures !Truthy(s.id) ==> r.id == Some(Slug(s.name))
  {
    if Truthy(s.id) then s else s.(id := Some(Slug(s.name)))
  }

  /** The rows whose id is not `k`, in order. */
  function Without(db: Store, k: Option<string>): (r: Store)
    ensures Subseq(r, db)
    ensures forall x :: x in r <==> x in db && x.id != k
  {
    if |db| == 0 then []
    else
      var rest := Without(db[1..], k);
      if db[0].id == k then
        SubseqTail(rest, db);
        rest
      else
        [db[0]] + rest
  }

  /** The rows after the first have ids other than the first's. */
  lemma ValidTail(db: Store)
    requires ValidStore(db) && |db| > 0
    ensures ValidStore(db[1..])
    ensures forall y :: y in db[1..] ==> y.id != db[0].id
  {
    forall y | y in db[1..]
      ensures y.id != db[0].id
    {
      var m :| 0 <= m < |db| - 1 && db[1..][m] == y;
      assert db[m + 1] == y;
    }
  }

  /** A row in front of rows with other ids keeps the table valid. */
  lemma ValidCons(x: Startup, rest: Store)
    requires x.id.Some? && ValidStore(rest)
    requires forall y :: y in rest ==> y.id != x.id
    ensures ValidStore([x] + rest)
  {
    var r := [x] + rest;
    forall i | 0 < i < |r|
      ensures r[i] == rest[i - 1] && r[i].id != x.id
    {
      assert rest[i - 1] in rest;
    }
  }

  /** Dropping rows keeps the ids distinct. */
  lemma {:induction false} WithoutValid(db: Store, k: Option<string>)
    requires ValidStore(db)
    ensures ValidStore(Without(db, k))
  {
    if |db| > 0 {
      ValidTail(db);
      WithoutValid(db[1..], k);
      if db[0].id != k {
        ValidCons(db[0], Without(db[1..], k));
      }
    }
  }

  /** `INSERT OR REPLACE`: the row with the record's id, if any, is deleted
      and the record is appended. */
  function Upsert(db: Store, row: Startup): (r: Store)
    requires ValidStore(db) && row.id.Some?
    ensures ValidStore(r)
    ensures |r| > 0 && r[|r| - 1] == row
    ensures Subseq(r[..|r| - 1], db)
    ensures forall x :: x in r[..|r| - 1] <==> x in db && x.id != row.id
  {
    var kept := Without(db, row.id);
    WithoutValid(db, row.id);
    var r := kept + [row];
    assert r[..|r| - 1] == kept;
    assert forall i :: 0 <= i < |kept| ==> kept[i] in kept;
    r
  }

  /** `save_startup`: the write outcome (the returned flag and the new
      table), or Raised when the database cannot be opened. */
  function SaveStartup(db: Store, s: Startup, mode: StoreMode): (r: Call<(bool, Store)>)
    requires ValidStore(db)
    ensures r.Raised? <==> mode == Unreachable
    ensures mode == Rejecting ==> r == Returned((false, db))
    ensures mode == Writable ==> (r.Returned? && r.value.0 && ValidStore(r.value.1) && |r.value.1| > 0
      && r.value.1[|r.value.1| - 1] == WithDefaultId(s)
      && Subseq(r.value.1[..|r.value.1| - 1], db)
      && forall x :: x in r.value.1[..|r.value.1| - 1] <==> x in db && x.id != WithDefaultId(s).id)
  {
    match mode
    case Unreachable => Raised
    case Rejecting => Returned((false, db))
    case Writable => Returned((true, Upsert(db, WithDefaultId(s))))
  }

  /** Upserting the same record twice is upserting it once. */
  lemma UpsertIdempotent(db: Store, row: Startup)
    requires ValidStore(db) && row.id.Some?
    ensures Upsert(Upsert(db, row), row) == Upsert(db, row)
  {
    var once := Upsert(db, row);
    var kept := Without(db, row.id);
    assert once == kept + [row];
    WithoutAppend(kept, row, row.id);
    WithoutAbsent(kept, row.id);
  }

  /** Dropping id `k` from rows followed by a row with id `k`. */
  lemma {:induction false} WithoutAppend(rows: Store, last: Startup, k: Option<string>)
    requires last.id == k
    ensures Without(rows + [last], k) == Without(rows, k)
  {
    if |rows| > 0 {
      assert (rows + [last])[1..] == rows[1..] + [last];
      WithoutAppend(rows[1..], last, k);
    }
  }

  /** Dropping an id no row has changes nothing. */
  lemma {:induction false} WithoutAbsent(rows: Store, k: Option<string>)
    requires forall x :: x in rows ==> x.id != k
    ensures Without(rows, k) == rows
  {
    if |rows| > 0 {
      assert forall x :: x in rows[1..] ==> x in rows;
      WithoutAbsent(rows[1..], k);
      assert rows == [rows[0]] + rows[1..];
    }
  }

  // ---------------------------------------------------------------------
  // get_startup

  /** The row is selected by `WHERE id = ? OR name = ?`. */
  predicate Answers(s: Startup, key: string) {
    s.id == Some(key) || s.name == key
  }

  /** `get_startup`: the first row, in table order, whose id or name is the
      key. */
  function GetStartup(db: Store, key: string): (r: Option<Startup>)
    ensures r.None? <==> forall i :: 0 <= i < |db| ==> !Answers(db[i], key)
    ensures r.Some? ==> exists i :: (0 <= i < |db| && db[i] == r.value && Answers(db[i], key)
      && forall j :: 0 <= j < i ==> !Answers(db[j], key))
  {
    if |db| == 0 then None
    else if Answers(db[0], key) then
      Some(db[0])
    else
      var r := GetStartup(db[1..], key);
      assert forall i :: 0 < i < |db| ==> db[i] == db[1..][i - 1];
      assert r.Some? ==> exists i :: (0 <= i < |db[1..]| && db[1..][i] == r.value && Answers(db[1..][i], key)
        && forall j :: 0 <= j < i ==> !Answers(db[1..][j], key));
      r
  }

  /** After a save, the saved id is found; it is found as the saved record
      unless an older row carries that id as its name. */
  lemma GetAfterUpsert(db: Store, row: Startup)
    requires ValidStore(db) && row.id.Some?
    ensures GetStartup(Upsert(db, row), row.id.value).Some?
    ensures (forall x :: x in db && x.id != row.id ==> x.name != row.id.value)
      ==> GetStartup(Upsert(db, row), row.id.value) == Some(row)
  {
    var r := Upsert(db, row);
    var k := row.id.value;
    assert Answers(r[|r| - 1], k);
    if forall x :: x in db && x.id != row.id ==> x.name != k {
      forall j | 0 <= j < |r| - 1
        ensures !Answers(r[j], k)
      {
        assert r[j] in r[..|r| - 1];
      }
    }
  }

  /** A row whose name is another record's id shadows that record. */
  lemma NameShadowsId()
    ensures var older := NamedOnly("acme").(id := Some("acme-inc"));
      var saved := NamedOnly("Acme").(id := Some("acme"));
      GetStartup(Upsert([older], saved), "acme") == Some(older)
  {
    var older := NamedOnly("acme").(id := Some("acme-inc"));
    var saved := NamedOnly("Acme").(id := Some("acme"));
    var r := Upsert([older], saved);
    assert older in r[..|r| - 1];
    assert r == [older, saved];
  }

  // ---------------------------------------------------------------------
  // search_startups

  /** Some element of an optional list contains `q` once lower-cased. */
  predicate AnyContains(xs: Option<seq<string>>, q: string) {
    xs.Some? && exists t :: t in xs.value && Contains(Lower(t), q)
  }

  /** A truthy optional string contains `q` once lower-cased. */
  predicate FieldContains(x: Option<string>, q: string) {
    Truthy(x) && Contains(Lower(x.value), q)
  }

  /** The record matches the lower-cased query `q`: in its name,
      description, industries, products, founders or headquarters. */
  predicate Matches(s: Startup, q: string) {
    || Contains(Lower(s.name), q)
    || FieldContains(s.description, q)
    || AnyContains(s.industry, q)
    || AnyContains(s.products, q)
    || AnyContains(s.founders, q)
    || FieldContains(s.headquarters, q)
  }

  /** The rows matching `q`, in table order. */
  function Search(db: Store, q: string): (r: Store)
    ensures Subseq(r, db)
    ensures forall x :: x in r <==> x in db && Matches(x, q)
  {
    if |db| == 0 then []
    else
      var rest := Search(db[1..], q);
      if Matches(db[0], q) then [db[0]] + rest
      else
        SubseqTail(rest, db);
        rest
  }

  /** `search_startups`: the query is lower-cased, then every row is matched against it. */
  function SearchStartups(db: Store, query: string): (r: Store)
    ensures Subseq(r, db)
    ensures forall x :: x in r <==> x in db && Matches(x, Lower(query))
  {
    Search(db, Lower(query))
  }

  /** The empty query matches every row. */
  lemma {:induction false} SearchEmptyQuery(db: Store)
    ensures SearchStartups(db, "") == db
  {
    assert Lower("") == "";
    SearchEverything(db);
  }

  lemma {:induction false} SearchEverything(db: Store)
    ensures Search(db, "") == db
  {
    if |db| > 0 {
      ContainsEmpty(Lower(db[0].name));
      SearchEverything(db[1..]);
      assert db == [db[0]] + db[1..];
    }
  }

  /** Search ignores the letter case of the query. */
  lemma SearchIgnoresCase(db: Store, query: string)
    ensures SearchStartups(db, Lower(query)) == SearchStartups(db, query)
  {
    LowerIdempotent(query);
  }

  /** A query that contains another can only narrow the results. */
  lemma SearchNarrows(db: Store, short: string, long: string)
    requires Contains(Lower(long), Lower(short))
    ensures forall x :: x in SearchStartups(db, long) ==> x in SearchStartups(db, short)
  {
    forall x | x in SearchStartups(db, long)
      ensures Matches(x, Lower(short))
    {
      MatchesNarrows(x, Lower(short), Lower(long));
    }
  }

  lemma MatchesNarrows(s: Startup, short: string, long: string)
    requires Contains(long, short) && Matches(s, long)
    ensures Matches(s, short)
  {
    if Contains(Lower(s.name), long) {
      ContainsTransitive(Lower(s.name), long, short);
    } else if FieldContains(s.description, long) {
      ContainsTransitive(Lower(s.description.value), long, short);
    } else if AnyContains(s.industry, long) {
      var t :| t in s.industry.value && Contains(Lower(t), long);
      ContainsTransitive(Lower(t), long, short);
    } else if AnyContains(s.products, long) {
      var t :| t in s.products.value && Contains(Lower(t), long);
      ContainsTransitive(Lower(t), long, short);
    } else if AnyContains(s.founders, long) {
      var t :| t in s.founders.value && Contains(Lower(t), long);
      ContainsTransitive(Lower(t), long, short);
    } else {
      ContainsTransitive(Lower(s.headquarters.value), long, short);
    }
  }

  // ---------------------------------------------------------------------
  // run_analytics: industry_count

  /** Every industry tag of every row with a truthy industry list, in order. */
  function AllIndustries(db: Store): seq<string> {
    if |db| == 0 then [] else Or(db[0].industry, []) + AllIndustries(db[1..])
  }

  /** The counts built by incrementing each tag's count, absent counting as 0, in order. */
  function Tally(tags: seq<string>): (r: Dict<string, nat>)
    ensures DistinctKeys(r)
  {
    if |tags| == 0 then []
    else
      var n := |tags| - 1;
      Increment(Tally(tags[..n]), tags[n])
  }

  /** Each tag is counted as often as it occurs, and only occurring tags are keys. */
  lemma {:induction false} TallyCounts(tags: seq<string>, t: string)
    ensures Lookup(Tally(tags), t).GetOr(0) == multiset(tags)[t]
    ensures Lookup(Tally(tags), t).Some? <==> t in tags
  {
    if |tags| > 0 {
      var n := |tags| - 1;
      var init := tags[..n];
      assert tags == init + [tags[n]];
      assert multiset(tags)[t] == multiset(init)[t] + (if t == tags[n] then 1 else 0);
      TallyCounts(init, t);
      assert Tally(tags) == Increment(Tally(init), tags[n]);
      IncrementCount(Tally(init), tags[n], t);
      assert t in tags <==> t in init || t == tags[n];
    }
  }

  /** The counts add up to the number of tags. */
  lemma {:induction false} TallySum(tags: seq<string>)
    ensures SumValues(Tally(tags)) == |tags|
  {
    if |tags| > 0 {
      TallySum(tags[..|tags| - 1]);
    }
  }

  /** `TallyCounts` for every tag at once. */
  lemma TallyExact(tags: seq<string>)
    ensures forall t :: Lookup(Tally(tags), t).GetOr(0) == multiset(tags)[t]
    ensures forall t :: Lookup(Tally(tags), t).Some? <==> t in tags
  {
    forall t
      ensures Lookup(Tally(tags), t).GetOr(0) == multiset(tags)[t]
      ensures Lookup(Tally(tags), t).Some? <==> t in tags
    {
      TallyCounts(tags, t);
    }
  }

  /** The industry counts: every industry tag of every row, counted by
      occurrence; a tag is a key exactly when some row carries it. */
  function IndustryCounts(db: Store): (r: Dict<string, nat>)
    ensures forall t :: Lookup(r, t).GetOr(0) == multiset(AllIndustries(db))[t]
    ensures forall t :: Lookup(r, t).Some? <==> t in AllIndustries(db)
  {
    TallyExact(AllIndustries(db));
    Tally(AllIndustries(db))
  }

  // ---------------------------------------------------------------------
  // run_analytics: funding_stats

  /** `s.replace(c, "", 1)`: the first occurrence of `c` removed. */
  function DeleteFirst(s: string, c: char): (r: string)
    ensures c in s ==> |r| == |s| - 1
    ensures c !in s ==> r == s
  {
    if |s| == 0 then ""
    else if s[0] == c then s[1..]
    else [s[0]] + DeleteFirst(s[1..], c)
  }

  predicate AllDigits(s: string) {
    forall i :: 0 <= i < |s| ==> IsDigit(s[i])
  }

  /** `value.replace('.', '', 1).isdigit()`: digits with at most one dot,
      and at least one digit. */
  predicate NumericText(t: string) {
    var u := DeleteFirst(t, '.');
    |u| > 0 && AllDigits(u)
  }

  function Pow10(n: nat): (r: nat)
    ensures r > 0
  {
    if n == 0 then 1 else 10 * Pow10(n - 1)
  }

  /** The number written by a string of decimal digits. */
  function DigitsValue(s: string): nat
    requires AllDigits(s)
  {
    if |s| == 0 then 0 else 10 * DigitsValue(s[..|s| - 1]) + (s[|s| - 1] as int - '0' as int)
  }

  /** Digits written one after another: the first group is shifted left by
      the length of the second. */
  lemma {:induction false} DigitsConcat(a: string, b: string)
    requires AllDigits(a) && AllDigits(b)
    ensures AllDigits(a + b)
    ensures DigitsValue(a + b) == DigitsValue(a) * Pow10(|b|) + DigitsValue(b)
    decreases |b|
  {
    if |b| == 0 {
      assert a + b == a;
    } else {
      var init := b[..|b| - 1];
      var ab := a + b;
      assert ab[..|ab| - 1] == a + init;
      assert ab[|ab| - 1] == b[|b| - 1];
      DigitsConcat(a, init);
      assert b[..|b| - 1] == init;
      ShiftDigit(DigitsValue(a), Pow10(|init|), DigitsValue(init), b[|b| - 1] as int - '0' as int);
    }
  }

  lemma ShiftDigit(x: int, p: int, y: int, d: int)
    ensures 10 * (x * p + y) + d == x * (10 * p) + (10 * y + d)
  {
  }

  /** Index of the first occurrence of `c` in `s`, or `|s|`. */
  function IndexOf(s: string, c: char): (r: nat)
    ensures r <= |s|
    ensures c !in s[..r]
    ensures r < |s| ==> s[r] == c
  {
    if |s| == 0 || s[0] == c then 0 else 1 + IndexOf(s[1..], c)
  }

  /** The digits before the first dot. */
  function WholePart(t: string): string {
    t[..IndexOf(t, '.')]
  }

  /** The digits after the first dot, or none when there is no dot. */
  function FracPart(t: string): string {
    var k := IndexOf(t, '.');
    if k < |t| then t[k + 1..] else ""
  }

  /** `float(t)` for a numeric text: digits before the dot, plus the digits
      after it scaled by their number of places. */
  function DecimalValue(t: string): (r: real)
    requires NumericText(t)
    ensures r >= 0.0
  {
    DecimalParts(t);
    DigitsValue(WholePart(t)) as real + Shift(DigitsValue(FracPart(t)) as real, |FracPart(t)|)
  }

  /** `x` moved `n` decimal places to the right of the point. */
  function Shift(x: real, n: nat): (r: real)
    ensures x >= 0.0 ==> r >= 0.0
  {
    if n == 0 then x else Shift(x, n - 1) / 10.0
  }

  /** Shifting back by as many places restores the number. */
  lemma {:induction false} ShiftScaled(x: real, n: nat)
    ensures Shift(x, n) * Pow10(n) as real == x
  {
    if n > 0 {
      ShiftScaled(x, n - 1);
      var y, p := Shift(x, n - 1), Pow10(n - 1) as real;
      assert Pow10(n) as real == 10.0 * p;
      assert (y / 10.0) * (10.0 * p) == y * p;
    }
  }

  /** The value of a numeric text is the number its digits write without
      the dot, moved right by as many places as there are digits after the
      dot. */
  lemma DecimalValueDigits(t: string)
    requires NumericText(t)
    ensures DecimalValue(t) == Shift(DigitsValue(DeleteFirst(t, '.')) as real, |FracPart(t)|)
  {
    DecimalDigits(t);
    ShiftDigits(DigitsValue(WholePart(t)), DigitsValue(FracPart(t)), |FracPart(t)|, DigitsValue(DeleteFirst(t, '.')));
  }

  /** A whole part and `n` fractional digits, read as one digit string and
      shifted back `n` places. */
  lemma ShiftDigits(w: nat, f: nat, n: nat, v: nat)
    requires v == w * Pow10(n) + f
    ensures w as real + Shift(f as real, n) == Shift(v as real, n)
  {
    ShiftAdd((w * Pow10(n)) as real, f as real, n);
    ShiftPow(w, n);
  }

  /** The digits without the dot are the whole part shifted past the
      fractional part. */
  lemma DecimalDigits(t: string)
    requires NumericText(t)
    ensures AllDigits(WholePart(t)) && AllDigits(FracPart(t))
    ensures DigitsValue(DeleteFirst(t, '.'))
      == DigitsValue(WholePart(t)) * Pow10(|FracPart(t)|) + DigitsValue(FracPart(t))
  {
    DecimalParts(t);
    DigitsConcat(WholePart(t), FracPart(t));
  }

  /** Shifting distributes over a sum. */
  lemma {:induction false} ShiftAdd(a: real, b: real, n: nat)
    ensures Shift(a + b, n) == Shift(a, n) + Shift(b, n)
  {
    if n > 0 {
      ShiftAdd(a, b, n - 1);
    }
  }

  /** A whole number moved left `n` places and back is itself. */
  lemma {:induction false} ShiftPow(w: nat, n: nat)
    ensures Shift((w * Pow10(n)) as real, n) == w as real
    decreases n
  {
    if n > 0 {
      ShiftPow(10 * w, n - 1);
      assert w * Pow10(n) == 10 * w * Pow10(n - 1);
      ShiftTen(((10 * w) * Pow10(n - 1)) as real, n - 1);
    }
  }

  /** Shifting a tenth is shifting one place more. */
  lemma {:induction false} ShiftTen(x: real, n: nat)
    ensures Shift(x, n) / 10.0 == Shift(x, n + 1)
  {
  }

  /** The pieces around the first dot are digit strings, and removing the
      dot joins them. */
  lemma DecimalParts(t: string)
    requires NumericText(t)
    ensures AllDigits(WholePart(t)) && AllDigits(FracPart(t))
    ensures DeleteFirst(t, '.') == WholePart(t) + FracPart(t)
  {
    var k := IndexOf(t, '.');
    DeleteFirstSplits(t, '.');
    if k < |t| {
      assert FracPart(t) == t[k + 1..];
    } else {
      assert FracPart(t) == "" && t[..k] == t;
    }
    assert DeleteFirst(t, '.') == WholePart(t) + FracPart(t);
    DigitsSplit(WholePart(t), FracPart(t));
  }

  /** Both halves of a digit string are digit strings. */
  lemma DigitsSplit(a: string, b: string)
    requires AllDigits(a + b)
    ensures AllDigits(a) && AllDigits(b)
  {
    assert forall i :: 0 <= i < |a| ==> (a + b)[i] == a[i];
    assert forall i :: 0 <= i < |b| ==> (a + b)[|a| + i] == b[i];
  }

  /** Removing the first `c` joins the text before and after it. */
  lemma {:induction false} DeleteFirstSplits(s: string, c: char)
    ensures IndexOf(s, c) < |s| ==> DeleteFirst(s, c) == s[..IndexOf(s, c)] + s[IndexOf(s, c) + 1..]
    ensures IndexOf(s, c) == |s| ==> DeleteFirst(s, c) == s
  {
    if |s| > 0 && s[0] != c {
      DeleteFirstSplits(s[1..], c);
      assert s[1..][..IndexOf(s[1..], c)] == s[1..IndexOf(s, c)];
      if IndexOf(s, c) == |s| {
        assert c !in s by {
          assert s == [s[0]] + s[1..];
        }
      }
    }
  }

  /** `float(value)` for one funding value that passes the filter, and 0 for
      one that does not (a skipped value adds nothing). */
  function AmountValue(a: Amount): real {
    match a
    case AmountNumber(n) => n as real
    case AmountText(t) => if NumericText(t) then DecimalValue(t) else 0.0
  }

  function FundingSum(d: Dict<string, Amount>): real {
    if |d| == 0 then 0.0 else AmountValue(d[0].1) + FundingSum(d[1..])
  }

  /** The row's funding dictionary is truthy, so the row is counted. */
  predicate HasFunding(row: Startup) {
    Truthy(row.funding)
  }

  /** The sum of the funding dictionaries of `rows`, each taken in full. */
  function TotalOf(rows: Store): real
    requires forall i :: 0 <= i < |rows| ==> HasFunding(rows[i])
  {
    if |rows| == 0 then 0.0
    else
      assert HasFunding(rows[0]);
      FundingSum(rows[0].funding.value) + TotalOf(rows[1..])
  }

  /** The total over rows with a truthy funding dictionary, and their number. */
  function FundingTotals(db: Store): (r: (real, nat))
    ensures r.1 <= |db|
    ensures r.1 == 0 ==> r.0 == 0.0
    ensures r.1 == |db| <==> forall i :: 0 <= i < |db| ==> Truthy(db[i].funding)
  {
    if |db| == 0 then (0.0, 0)
    else
      var rest := FundingTotals(db[1..]);
      assert forall i :: 0 < i < |db| ==> db[i] == db[1..][i - 1];
      if Truthy(db[0].funding) then (FundingSum(db[0].funding.value) + rest.0, rest.1 + 1)
      else rest
  }

  /** The count is the number of rows with a truthy funding dictionary, and
      the total is the sum of those rows' dictionaries. */
  lemma {:induction false} FundingTotalsCounted(db: Store)
    ensures forall x :: x in Filter(db, HasFunding) ==> HasFunding(x)
    ensures FundingTotals(db).1 == |Filter(db, HasFunding)|
    ensures FundingTotals(db).0 == TotalOf(Filter(db, HasFunding))
  {
    if |db| > 0 {
      FundingTotalsCounted(db[1..]);
      var kept := Filter(db[1..], HasFunding);
      if HasFunding(db[0]) {
        assert Filter(db, HasFunding) == [db[0]] + kept;
        assert ([db[0]] + kept)[1..] == kept;
      } else {
        assert Filter(db, HasFunding) == kept;
      }
    }
  }

  datatype FundingReport = FundingReport(total: real, average: real)

  /** `funding_stats`: the total and the average over the counted rows. */
  function FundingStats(db: Store): (r: FundingReport)
    ensures FundingTotals(db).1 > 0 ==> r.average * FundingTotals(db).1 as real == r.total
    ensures FundingTotals(db).1 == 0 ==> r == FundingReport(0.0, 0.0)
  {
    var (total, valid) := FundingTotals(db);
    if valid > 0 then
      var average := total / valid as real;
      assert average * valid as real == total;
      FundingReport(total, average)
    else FundingReport(total, 0.0)
  }

  /** A free-text figure such as "$10M" makes its row count towards the
      average while adding nothing to the total. */
  lemma TextFigureAddsNothing()
    ensures var row := NamedOnly("Acme").(funding := Some([("Revenue", AmountText("$10M"))]));
      FundingTotals([row]) == (0.0, 1)
  {
    assert !NumericText("$10M") by {
      assert DeleteFirst("$10M", '.')[0] == '$';
    }
  }

  /** A dotted figure counts with its decimal value. */
  lemma DottedFigure()
    ensures NumericText("12.5") && DecimalValue("12.5") == 12.5
  {
    assert DeleteFirst("12.5", '.') == "125";
    assert IndexOf("12.5", '.') == 2;
    assert WholePart("12.5") == "12" && FracPart("12.5") == "5";
    assert DigitsValue("12") == 12 by {
      assert "12"[..1] == "1";
    }
    assert Shift(5.0, 1) == 0.5;
  }

  // ---------------------------------------------------------------------
  // run_analytics

  datatype Analytics =
    | IndustryCount(counts: Dict<string, nat>)
    | FundingSummary(report: FundingReport)
    | StartupCount(total: nat)

  /** `run_analytics`: the two named reports, and the row count for any
      other query type. */
  function RunAnalytics(db: Store, kind: string): (r: Analytics)
    ensures r.IndustryCount? <==> kind == "industry_count"
    ensures r.FundingSummary? <==> kind == "funding_stats"
    ensures r.IndustryCount? ==> SumValues(r.counts) == |AllIndustries(db)|
    ensures r.IndustryCount? ==> forall t :: Lookup(r.counts, t).GetOr(0) == multiset(AllIndustries(db))[t]
    ensures r.IndustryCount? ==> forall t :: Lookup(r.counts, t).Some? <==> t in AllIndustries(db)
    ensures r.FundingSummary? ==> r.report == FundingStats(db)
    ensures r.StartupCount? ==> r.total == |db|
  {
    if kind == "industry_count" then
      TallySum(AllIndustries(db));
      TallyExact(AllIndustries(db));
      IndustryCount(IndustryCounts(db))
    else if kind == "funding_stats" then FundingSummary(FundingStats(db))
    else StartupCount(|db|)
  }
}
