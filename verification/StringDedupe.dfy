/** cleanStrings() without the autograd clean-up: rebuild rocpd_string from the
    referenced texts and relink every registered column
    (rocpd_python/rocpd/strings.py:15-39 and :57-102). */
module StringDedupe {
  import opened Wrappers

  /** rocpd_string by id, and the values of each registered column. */
  datatype Db = Db(strings: map<int, string>, columns: seq<seq<int>>)

  // ---- what the statements compute -------------------------------------

  ghost predicate Referenced(columns: seq<seq<int>>, id: int) {
    exists c, j :: 0 <= c < |columns| && 0 <= j < |columns[c]| && columns[c][j] == id
  }

  /** SELECT distinct string ... where id in activeString order by id: each
      active text once, in the order of one active id per text. */
  ghost predicate IsSelection(strings: map<int, string>, active: set<int>, texts: seq<string>, reps: seq<int>) {
    && |reps| == |texts|
    && (forall i, j :: 0 <= i < j < |texts| ==> texts[i] != texts[j] && reps[i] < reps[j])
    && (forall k :: 0 <= k < |reps| ==> reps[k] in active && reps[k] in strings && strings[reps[k]] == texts[k])
    && (forall id :: id in active && id in strings ==> strings[id] in texts)
  }

  function Position(texts: seq<string>, t: string): (k: nat)
    requires t in texts
    ensures k < |texts| && texts[k] == t
  {
    if texts[0] == t then 0 else 1 + Position(texts[1..], t)
  }

  function TextAt(texts: seq<string>, id: int): string
    requires 1 <= id <= |texts|
  {
    texts[id - 1]
  }

  /** The new table: AUTOINCREMENT numbers the texts from 1. */
  function Numbered(texts: seq<string>): map<int, string> {
    map id: int | 1 <= id <= |texts| :: TextAt(texts, id)
  }

  /** SELECT after from mapper where before = id; NULL when no row matches. */
  function Mapped(strings: map<int, string>, texts: seq<string>, id: int): Option<int> {
    if id in strings then
      if strings[id] in texts then Some(Position(texts, strings[id]) + 1) else None
    else Some(1)
  }

  /** db becomes clean, with this selection. */
  ghost predicate Cleaned(db: Db, active: set<int>, texts: seq<string>, reps: seq<int>, clean: Db) {
    && (forall id :: id in active <==> Referenced(db.columns, id))
    && IsSelection(db.strings, active, texts, reps)
    && clean.strings == Numbered(texts)
    && |clean.columns| == |db.columns|
    && forall c :: 0 <= c < |db.columns| ==>
         && |clean.columns[c]| == |db.columns[c]|
         && forall j :: 0 <= j < |db.columns[c]| ==>
              Mapped(db.strings, texts, db.columns[c][j]) == Some(clean.columns[c][j])
  }

  /** clean is db after cleanStrings(), which may pick any id of a text to order
      it by. */
  ghost predicate IsCleaned(db: Db, clean: Db) {
    exists active, texts, reps :: Cleaned(db, active, texts, reps, clean)
  }

  /** One active id for each selected text exists that orders the texts. */
  ghost predicate IsSelected(strings: map<int, string>, active: set<int>, texts: seq<string>) {
    exists reps :: IsSelection(strings, active, texts, reps)
  }

  // ---- the statements in turn ------------------------------------------

  lemma {:induction false} HasLeast(s: set<int>) returns (m: int)
    requires s != {}
    ensures m in s && forall x :: x in s ==> m <= x
    decreases |s|
  {
    assert (forall y :: y !in s) ==> s == {};
    var y :| y in s;
    if s == {y} {
      m := y;
    } else {
      m := HasLeast(s - {y});
      assert forall x :: x in s ==> x in s - {y} || x == y;
      if y < m {
        m := y;
      }
    }
  }

  method SelectTexts(strings: map<int, string>, active: set<int>) returns (texts: seq<string>)
    ensures IsSelected(strings, active, texts)
  {
    hide IsSelection, Before;
    texts := [];
    ghost var reps: seq<int> := [];
    NoneSelected(strings, active);
    ghost var all := active * strings.Keys;
    var todo := active * strings.Keys;
    assert all - todo == {};
    while todo != {}
      invariant todo <= all && |texts| == |reps|
      invariant IsSelection(strings, all - todo, texts, reps)
      invariant Before(reps, todo)
      decreases |todo|
    {
      ghost var m := HasLeast(todo);
      var id :| id in todo && forall x :: x in todo ==> id <= x;
      NextBefore(reps, todo, id);
      Selected(strings, all - todo, texts, reps, id);
      assert all - todo + {id} == all - (todo - {id});
      if strings[id] !in texts {
        texts := texts + [strings[id]];
        reps := reps + [id];
      }
      todo := todo - {id};
    }
    assert all - todo == all;
    SelectedAll(strings, active, texts, reps);
  }

  ghost predicate Before(reps: seq<int>, todo: set<int>) {
    forall k, id :: 0 <= k < |reps| && id in todo ==> reps[k] < id
  }

  lemma NextBefore(reps: seq<int>, todo: set<int>, id: int)
    requires Before(reps, todo) && id in todo && forall x :: x in todo ==> id <= x
    ensures forall k :: 0 <= k < |reps| ==> reps[k] < id
    ensures Before(reps, todo - {id}) && Before(reps + [id], todo - {id})
  {
  }

  lemma NoneSelected(strings: map<int, string>, active: set<int>)
    ensures IsSelection(strings, {}, [], []) && Before([], active * strings.Keys)
  {
  }

  lemma SelectedAll(strings: map<int, string>, active: set<int>, texts: seq<string>, reps: seq<int>)
    requires IsSelection(strings, active * strings.Keys, texts, reps)
    ensures IsSelection(strings, active, texts, reps)
  {
  }

  /** The next active id in order: its text joins the selection if it is new. */
  lemma Selected(strings: map<int, string>, done: set<int>, texts: seq<string>, reps: seq<int>, id: int)
    requires IsSelection(strings, done, texts, reps) && id in strings
    requires forall k :: 0 <= k < |reps| ==> reps[k] < id
    ensures if strings[id] in texts then IsSelection(strings, done + {id}, texts, reps)
            else IsSelection(strings, done + {id}, texts + [strings[id]], reps + [id])
  {
  }

  method CleanStrings(db: Db) returns (clean: Db)
    ensures IsCleaned(db, clean)
  {
    var used: set<int> := {};
    for c := 0 to |db.columns|
      invariant forall id :: id in used <==> Referenced(db.columns[..c], id)
    {
      var column := db.columns[c];
      var values := set v | v in column;
      forall id ensures Referenced(db.columns[..c + 1], id) <==> id in used || id in values {
        ReferencedMore(db.columns, c, id);
      }
      used := used + values;
    }
    assert db.columns[..|db.columns|] == db.columns;
    var selected := SelectTexts(db.strings, used);
    ghost var reps :| IsSelection(db.strings, used, selected, reps);
    var columns: seq<seq<int>> := [];
    for c := 0 to |db.columns|
      invariant |columns| == c
      invariant forall i :: 0 <= i < c ==> |columns[i]| == |db.columns[i]|
      invariant forall i, j :: 0 <= i < c && 0 <= j < |db.columns[i]| ==>
                  Mapped(db.strings, selected, db.columns[i][j]) == Some(columns[i][j])
    {
      var column: seq<int> := [];
      for j := 0 to |db.columns[c]|
        invariant |column| == j
        invariant forall k :: 0 <= k < j ==> Mapped(db.strings, selected, db.columns[c][k]) == Some(column[k])
      {
        var id := db.columns[c][j];
        assert Referenced(db.columns, id);
        column := column + [Mapped(db.strings, selected, id).value];
      }
      columns := columns + [column];
    }
    clean := Db(Numbered(selected), columns);
    assert Cleaned(db, used, selected, reps, clean);
  }

  lemma ReferencedMore(columns: seq<seq<int>>, c: nat, id: int)
    requires c < |columns|
    ensures Referenced(columns[..c + 1], id) <==> Referenced(columns[..c], id) || id in columns[c]
  {
    if Referenced(columns[..c], id) {
      var d, j :| 0 <= d < c && 0 <= j < |columns[..c][d]| && columns[..c][d][j] == id;
      assert columns[..c + 1][d][j] == id;
    }
    if id in columns[c] {
      var j :| 0 <= j < |columns[c]| && columns[c][j] == id;
      assert columns[..c + 1][c][j] == id;
    }
    if Referenced(columns[..c + 1], id) {
      var d, j :| 0 <= d < c + 1 && 0 <= j < |columns[..c + 1][d]| && columns[..c + 1][d][j] == id;
      if d < c {
        assert columns[..c][d][j] == id;
      }
    }
  }

  // ---- what it preserves -----------------------------------------------

  /** Every reference keeps its text; one that dangled becomes 1. */
  lemma ReferencesKeepText(db: Db, clean: Db, c: nat, j: nat)
    requires IsCleaned(db, clean) && c < |db.columns| && j < |db.columns[c]|
    ensures |clean.columns| == |db.columns| && |clean.columns[c]| == |db.columns[c]|
    ensures var id, to := db.columns[c][j], clean.columns[c][j];
            if id in db.strings then to in clean.strings && clean.strings[to] == db.strings[id] else to == 1
  {
    var active, texts, reps :| Cleaned(db, active, texts, reps, clean);
    assert Mapped(db.strings, texts, db.columns[c][j]) == Some(clean.columns[c][j]);
  }

  /** The new table holds no text twice and no row nothing refers to. */
  lemma TableIsTight(db: Db, clean: Db)
    requires IsCleaned(db, clean)
    ensures forall a, b :: a in clean.strings && b in clean.strings && clean.strings[a] == clean.strings[b] ==> a == b
    ensures forall id :: id in clean.strings ==> Referenced(clean.columns, id)
  {
    var active, texts, reps :| Cleaned(db, active, texts, reps, clean);
    forall id | id in clean.strings ensures Referenced(clean.columns, id) {
      RowIsReferenced(db, active, texts, reps, clean, id);
    }
  }

  lemma RowIsReferenced(db: Db, active: set<int>, texts: seq<string>, reps: seq<int>, clean: Db, id: int)
    requires Cleaned(db, active, texts, reps, clean) && 1 <= id <= |texts|
    ensures Referenced(clean.columns, id)
  {
    var rep := reps[id - 1];
    assert Referenced(db.columns, rep);
    MapsTo(db.strings, active, texts, reps, id);
    hide IsSelection, Mapped;
    var c, j :| 0 <= c < |db.columns| && 0 <= j < |db.columns[c]| && db.columns[c][j] == rep;
    assert Mapped(db.strings, texts, rep) == Some(clean.columns[c][j]);
    assert clean.columns[c][j] == id;
  }

  lemma MapsTo(strings: map<int, string>, active: set<int>, texts: seq<string>, reps: seq<int>, id: int)
    requires IsSelection(strings, active, texts, reps) && 1 <= id <= |texts|
    ensures Mapped(strings, texts, reps[id - 1]) == Some(id)
  {
    assert strings[reps[id - 1]] == texts[id - 1];
    assert forall i :: 0 <= i < |texts| && texts[i] == texts[id - 1] ==> i == id - 1;
  }

  /** Ascending numbers between 1 and their count are 1, 2, 3, ... */
  lemma {:induction false} Ascending(reps: seq<int>, m: int)
    requires forall i, j :: 0 <= i < j < |reps| ==> reps[i] < reps[j]
    requires forall k :: 0 <= k < |reps| ==> 1 <= reps[k] <= m
    ensures |reps| <= m || reps == []
    ensures |reps| == m ==> forall k :: 0 <= k < |reps| ==> reps[k] == k + 1
  {
    if reps != [] {
      var n := |reps| - 1;
      Ascending(reps[..n], reps[n] - 1);
    }
  }

  lemma {:induction false} AllTaken(texts: seq<string>, found: seq<string>)
    requires forall i, j :: 0 <= i < j < |texts| ==> texts[i] != texts[j]
    requires forall k :: 0 <= k < |texts| ==> texts[k] in found
    ensures |found| >= |texts|
  {
    if texts != [] {
      var n := |texts| - 1;
      var p := Position(found, texts[n]);
      var rest := found[..p] + found[p + 1..];
      forall k | 0 <= k < n ensures texts[k] in rest {
        var q := Position(found, texts[k]);
        assert q != p;
        assert rest[if q < p then q else q - 1] == texts[k];
      }
      AllTaken(texts[..n], rest);
    }
  }

  /** A table already numbered 1..m, all referenced, is selected as it is. */
  lemma SelectionIsForced(m: seq<string>, active: set<int>, texts: seq<string>, reps: seq<int>)
    requires forall i, j :: 0 <= i < j < |m| ==> m[i] != m[j]
    requires forall id :: 1 <= id <= |m| ==> id in active
    requires IsSelection(Numbered(m), active, texts, reps)
    ensures texts == m
  {
    forall k | 0 <= k < |m| ensures m[k] in texts {
      assert k + 1 in Numbered(m) && Numbered(m)[k + 1] == m[k];
    }
    AllTaken(m, texts);
    Ascending(reps, |m|);
    forall k | 0 <= k < |texts| ensures texts[k] == m[k] {
      assert Numbered(m)[reps[k]] == texts[k];
    }
  }

  /** A second run changes no reference and no row, whatever it selects. */
  lemma SecondRunChangesNothing(db: Db, once: Db, twice: Db)
    requires IsCleaned(db, once) && IsCleaned(once, twice)
    ensures twice == once
  {
    hide Referenced, IsSelection, Mapped;
    var active, texts, reps :| Cleaned(db, active, texts, reps, once);
    var active2, texts2, reps2 :| Cleaned(once, active2, texts2, reps2, twice);
    SecondSelection(db, active, texts, reps, once, active2, texts2, reps2, twice);
    forall c | 0 <= c < |once.columns| ensures twice.columns[c] == once.columns[c] {
      forall j | 0 <= j < |once.columns[c]| ensures twice.columns[c][j] == once.columns[c][j] {
        var id := once.columns[c][j];
        assert Mapped(once.strings, texts2, id) == Some(twice.columns[c][j]);
        assert Mapped(db.strings, texts, db.columns[c][j]) == Some(id);
        MappedTwice(db.strings, texts, db.columns[c][j], id);
      }
    }
  }

  lemma SecondSelection(db: Db, active: set<int>, texts: seq<string>, reps: seq<int>, once: Db,
                        active2: set<int>, texts2: seq<string>, reps2: seq<int>, twice: Db)
    requires Cleaned(db, active, texts, reps, once)
    requires Cleaned(once, active2, texts2, reps2, twice)
    ensures texts2 == texts
    ensures forall i, j :: 0 <= i < j < |texts| ==> texts[i] != texts[j]
  {
    hide Mapped;
    TableIsTight(db, once);
    SelectionIsForced(texts, active2, texts2, reps2);
  }

  lemma MappedTwice(strings: map<int, string>, texts: seq<string>, id: int, to: int)
    requires forall i, j :: 0 <= i < j < |texts| ==> texts[i] != texts[j]
    requires Mapped(strings, texts, id) == Some(to)
    ensures Mapped(Numbered(texts), texts, to) == Some(to)
  {
    if to in Numbered(texts) {
      assert Numbered(texts)[to] == texts[to - 1];
      assert forall i :: 0 <= i < |texts| && texts[i] == texts[to - 1] ==> i == to - 1;
    }
  }
}
