/**
 * The order `sched:list` shows its rows in: `rows.sort_by { |map| map[:Name] }`,
 * comparing names with Ruby's `String#<=>`.
 */
module NameOrder {
  import opened Entities

  /**
   * `String#<=>` as a "not after" test: the first differing character
   * decides, and a proper prefix comes first.
   */
  predicate NameLe(a: string, b: string) {
    |a| == 0 || (|b| > 0 && (a[0] < b[0] || (a[0] == b[0] && NameLe(a[1..], b[1..]))))
  }

  lemma {:induction false} NameLeReflexive(a: string)
    ensures NameLe(a, a)
  {
    if |a| > 0 {
      NameLeReflexive(a[1..]);
    }
  }

  lemma {:induction false} NameLeTotal(a: string, b: string)
    ensures NameLe(a, b) || NameLe(b, a)
  {
    if |a| > 0 && |b| > 0 && a[0] == b[0] {
      NameLeTotal(a[1..], b[1..]);
    }
  }

  lemma {:induction false} NameLeAntisymmetric(a: string, b: string)
    requires NameLe(a, b) && NameLe(b, a)
    ensures a == b
  {
    if |a| > 0 && |b| > 0 {
      NameLeAntisymmetric(a[1..], b[1..]);
      assert a == [a[0]] + a[1..] && b == [b[0]] + b[1..];
    }
  }

  lemma {:induction false} NameLeTransitive(a: string, b: string, c: string)
    requires NameLe(a, b) && NameLe(b, c)
    ensures NameLe(a, c)
  {
    if |a| > 0 && |b| > 0 && |c| > 0 && a[0] == b[0] && b[0] == c[0] {
      NameLeTransitive(a[1..], b[1..], c[1..]);
    }
  }

  /** Ascending by name: no row comes after a row whose name sorts after its own. */
  predicate SortedByName(rows: seq<ScheduleRow>) {
    forall i, j :: 0 <= i < j < |rows| ==> NameLe(rows[i].name, rows[j].name)
  }

  /** Rows with the same name are the same row. */
  predicate NamesIdentifyRows(rows: seq<ScheduleRow>) {
    forall x, y :: x in rows && y in rows && x.name == y.name ==> x == y
  }

  lemma PrependSorted(h: ScheduleRow, rest: seq<ScheduleRow>)
    requires SortedByName(rest)
    requires forall x :: x in rest ==> NameLe(h.name, x.name)
    ensures SortedByName([h] + rest)
  {
    var s := [h] + rest;
    forall i, j | 0 <= i < j < |s|
      ensures NameLe(s[i].name, s[j].name)
    {
      assert s[j] == rest[j - 1];
      if i > 0 {
        assert s[i] == rest[i - 1];
      }
    }
  }

  lemma InsertAtFront(r: ScheduleRow, rows: seq<ScheduleRow>)
    requires SortedByName(rows) && |rows| > 0 && NameLe(r.name, rows[0].name)
    ensures SortedByName([r] + rows)
  {
    forall x | x in rows
      ensures NameLe(r.name, x.name)
    {
      if x != rows[0] {
        NameLeTransitive(r.name, rows[0].name, x.name);
      }
    }
    PrependSorted(r, rows);
  }

  lemma InsertBehindHead(r: ScheduleRow, rows: seq<ScheduleRow>, rest: seq<ScheduleRow>)
    requires SortedByName(rows) && |rows| > 0 && !NameLe(r.name, rows[0].name)
    requires SortedByName(rest) && multiset(rest) == multiset(rows[1..]) + multiset{r}
    ensures SortedByName([rows[0]] + rest)
    ensures multiset([rows[0]] + rest) == multiset(rows) + multiset{r}
  {
    assert rows == [rows[0]] + rows[1..];
    NameLeTotal(r.name, rows[0].name);
    forall x | x in rest
      ensures NameLe(rows[0].name, x.name)
    {
      assert x in multiset(rest);
    }
    PrependSorted(rows[0], rest);
  }

  /** Places `r` into sorted `rows`. */
  function InsertByName(r: ScheduleRow, rows: seq<ScheduleRow>): (res: seq<ScheduleRow>)
    requires SortedByName(rows)
    ensures SortedByName(res)
    ensures multiset(res) == multiset(rows) + multiset{r}
  {
    if |rows| == 0 then
      [r]
    else if NameLe(r.name, rows[0].name) then
      InsertAtFront(r, rows);
      assert rows == [rows[0]] + rows[1..];
      [r] + rows
    else
      var rest := InsertByName(r, rows[1..]);
      InsertBehindHead(r, rows, rest);
      [rows[0]] + rest
  }

  /**
   * `sort_by` on the name: the rows in ascending name order, each row kept
   * exactly as often as it occurs. Nothing is promised about the relative
   * order of rows with equal names.
   */
  function SortByName(rows: seq<ScheduleRow>): (res: seq<ScheduleRow>)
    ensures SortedByName(res)
    ensures multiset(res) == multiset(rows)
  {
    if |rows| == 0 then []
    else
      assert rows == [rows[0]] + rows[1..];
      InsertByName(rows[0], SortByName(rows[1..]))
  }

  /** Two sorted arrangements of one multiset of rows start with the same row. */
  lemma SortedHeadsAgree(a: seq<ScheduleRow>, b: seq<ScheduleRow>)
    requires SortedByName(a) && SortedByName(b)
    requires multiset(a) == multiset(b) && |a| > 0
    requires NamesIdentifyRows(a)
    ensures |b| > 0 && a[0] == b[0]
  {
    assert a[0] in multiset(b);
    assert b[0] in multiset(a);
    var i :| 0 <= i < |a| && a[i] == b[0];
    var j :| 0 <= j < |b| && b[j] == a[0];
    NameLeReflexive(a[0].name);
    NameLeReflexive(b[0].name);
    assert NameLe(a[0].name, b[0].name) by {
      if i > 0 {
        assert NameLe(a[0].name, a[i].name);
      }
    }
    assert NameLe(b[0].name, a[0].name) by {
      if j > 0 {
        assert NameLe(b[0].name, b[j].name);
      }
    }
    NameLeAntisymmetric(a[0].name, b[0].name);
    assert a[i] in a;
  }

  lemma TailsKeepIdentity(a: seq<ScheduleRow>)
    requires NamesIdentifyRows(a) && |a| > 0
    ensures NamesIdentifyRows(a[1..])
  {
    forall x, y | x in a[1..] && y in a[1..] && x.name == y.name
      ensures x == y
    {
      assert x in a && y in a;
    }
  }

  lemma TailsSameMultiset(a: seq<ScheduleRow>, b: seq<ScheduleRow>)
    requires multiset(a) == multiset(b) && |a| > 0 && |b| > 0 && a[0] == b[0]
    ensures multiset(a[1..]) == multiset(b[1..])
  {
    assert a == [a[0]] + a[1..] && b == [b[0]] + b[1..];
    assert multiset(a[1..]) == multiset(a) - multiset{a[0]};
    assert multiset(b[1..]) == multiset(b) - multiset{b[0]};
  }

  /**
   * When names identify rows, there is only one sorted arrangement of a
   * multiset of rows: the order the rows arrived in cannot show through.
   */
  lemma {:induction false} SortedUnique(a: seq<ScheduleRow>, b: seq<ScheduleRow>)
    requires SortedByName(a) && SortedByName(b)
    requires multiset(a) == multiset(b)
    requires NamesIdentifyRows(a)
    ensures a == b
  {
    if |a| == 0 {
      assert |multiset(b)| == 0;
    } else {
      SortedHeadsAgree(a, b);
      TailsSameMultiset(a, b);
      TailsKeepIdentity(a);
      assert a == [a[0]] + a[1..] && b == [b[0]] + b[1..];
      SortedUnique(a[1..], b[1..]);
    }
  }
}
