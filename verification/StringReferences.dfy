/** Which columns cleanStrings() relinks (rocpd_python/rocpd/strings.py:21-39),
    beside those the schema declares as references to rocpd_string. */
module StringReferences {
  import opened Wrappers
  import opened SqlSchema
  import opened StringDedupe

  datatype User = User(table: SqlTable, column: SqlColumn)

  const WELL_KNOWN: seq<User> := [
    User(Op, DescriptionId), User(Op, OpTypeId), User(Api, DomainId), User(Api, CategoryId), User(Api, ApiNameId),
    User(KernelApi, KernelNameId)]

  /** The list with the columns registered in rocpd_metadata, each once. */
  function Users(registered: seq<User>): seq<User> {
    if registered == [] then WELL_KNOWN
    else
      var n := |registered| - 1;
      var before := Users(registered[..n]);
      if registered[n] in before then before else before + [registered[n]]
  }

  lemma {:induction false} UsersAre(registered: seq<User>)
    ensures forall u :: u in Users(registered) <==> u in WELL_KNOWN || u in registered
    ensures forall i, j :: 0 <= i < j < |Users(registered)| ==> Users(registered)[i] != Users(registered)[j]
  {
    if registered != [] {
      var n := |registered| - 1;
      UsersAre(registered[..n]);
      assert registered == registered[..n] + [registered[n]];
    }
  }

  /** Of the declared references to rocpd_string the list has all but the names of
      counters and of stack frames, and it has no other column. */
  lemma ListCoversAllButTwo(u: User)
    ensures u in WELL_KNOWN <==>
              && u.column in References(u.table) && References(u.table)[u.column] == Strings
              && u != User(Counter, NameId) && u != User(StackFrame, NameId)
  {
  }

  // ---- the whole database ----------------------------------------------

  /** rocpd_string, and every column that may refer to it. */
  datatype Database = Database(strings: map<int, string>, columns: map<User, seq<int>>)

  predicate HasColumns(db: Database, users: seq<User>) {
    forall u :: u in users ==> u in db.columns
  }

  function Linked(db: Database, users: seq<User>): Db
    requires HasColumns(db, users)
  {
    Db(db.strings, seq(|users|, i requires 0 <= i < |users| => db.columns[users[i]]))
  }

  /** The listed columns are cleaned, all others left alone. */
  ghost predicate Cleans(db: Database, users: seq<User>, clean: Database) {
    && HasColumns(db, users) && clean.columns.Keys == db.columns.Keys
    && IsCleaned(Linked(db, users), Linked(clean, users))
    && forall u :: u in db.columns && u !in users ==> clean.columns[u] == db.columns[u]
  }

  method StringUsers(registered: seq<User>) returns (users: seq<User>)
    ensures users == Users(registered)
  {
    users := WELL_KNOWN;
    assert registered[..0] == [];
    for i := 0 to |registered|
      invariant users == Users(registered[..i])
    {
      assert registered[..i + 1][..i] == registered[..i];
      if registered[i] !in users {
        users := users + [registered[i]];
      }
    }
    assert registered[..|registered|] == registered;
  }

  method Clean(db: Database, registered: seq<User>) returns (clean: Database)
    requires HasColumns(db, Users(registered))
    ensures Cleans(db, Users(registered), clean)
  {
    hide Users, IsCleaned;
    var users := StringUsers(registered);
    UsersAre(registered);
    var linked := CleanStrings(Linked(db, users));
    SameShape(Linked(db, users), linked);
    var columns := db.columns;
    for c := 0 to |users|
      invariant columns.Keys == db.columns.Keys
      invariant forall i :: 0 <= i < c ==> columns[users[i]] == linked.columns[i]
      invariant forall u :: u in db.columns && u !in users[..c] ==> columns[u] == db.columns[u]
    {
      assert users[c] in users && forall i :: 0 <= i < c ==> users[i] != users[c];
      columns := columns[users[c] := linked.columns[c]];
      assert users[..c + 1] == users[..c] + [users[c]];
    }
    clean := Database(linked.strings, columns);
    assert users[..|users|] == users;
    assert Linked(clean, users) == linked;
  }

  lemma SameShape(db: Db, clean: Db)
    requires IsCleaned(db, clean)
    ensures |clean.columns| == |db.columns|
  {
  }

  /** Every reference in a listed column keeps its text; a dangling one becomes 1. */
  lemma ListedReferencesKeepText(db: Database, users: seq<User>, clean: Database, u: User, j: nat)
    requires Cleans(db, users, clean) && u in users && j < |db.columns[u]|
    ensures |clean.columns[u]| == |db.columns[u]|
    ensures var id, to := db.columns[u][j], clean.columns[u][j];
            if id in db.strings then to in clean.strings && clean.strings[to] == db.strings[id] else to == 1
  {
    var c :| 0 <= c < |users| && users[c] == u;
    ReferencesKeepText(Linked(db, users), Linked(clean, users), c, j);
  }

  /** A reference in any other column is not touched, so it keeps its text if and
      only if the text keeps its id. */
  lemma UnlistedReferenceKeepsTextIff(db: Database, users: seq<User>, clean: Database, u: User, j: nat,
                                      active: set<int>, texts: seq<string>, reps: seq<int>)
    requires Cleans(db, users, clean) && Cleaned(Linked(db, users), active, texts, reps, Linked(clean, users))
    requires u in db.columns && u !in users && j < |db.columns[u]| && db.columns[u][j] in db.strings
    ensures var id := db.columns[u][j];
            && clean.columns[u] == db.columns[u]
            && (id in clean.strings && clean.strings[id] == db.strings[id]
                <==> Mapped(db.strings, texts, id) == Some(id))
  {
    hide IsCleaned, IsSelection, Referenced, Mapped, Numbered;
    TextsDistinct(db.strings, active, texts, reps);
    SameTextIff(db.strings, texts, db.columns[u][j]);
  }

  lemma TextsDistinct(strings: map<int, string>, active: set<int>, texts: seq<string>, reps: seq<int>)
    requires IsSelection(strings, active, texts, reps)
    ensures forall i, j :: 0 <= i < j < |texts| ==> texts[i] != texts[j]
  {
  }

  lemma SameTextIff(strings: map<int, string>, texts: seq<string>, id: int)
    requires id in strings && forall i, j :: 0 <= i < j < |texts| ==> texts[i] != texts[j]
    ensures id in Numbered(texts) && Numbered(texts)[id] == strings[id] <==> Mapped(strings, texts, id) == Some(id)
  {
    if id in Numbered(texts) && Numbered(texts)[id] == strings[id] {
      assert texts[id - 1] == strings[id];
      assert forall i :: 0 <= i < |texts| && texts[i] == texts[id - 1] ==> i == id - 1;
    }
  }

  // ---- an input --------------------------------------------------------

  /** An operation named 2 and a counter named 3: the one row left is the
      operation's text, and the counter's name dangles. */
  lemma CounterNameDangles(db: Database, clean: Database)
    requires db.strings == map[1 := "a", 2 := "b", 3 := "c"] && db.columns.Keys >= {User(Counter, NameId)}
    requires HasColumns(db, WELL_KNOWN) && db.columns[User(Counter, NameId)] == [3]
    requires forall u :: u in WELL_KNOWN ==>
               db.columns[u] == if u == User(Op, DescriptionId) || u == User(Op, OpTypeId) then [2] else []
    requires Cleans(db, Users([]), clean)
    ensures clean.strings == map[1 := "b"]
    ensures clean.columns[User(Counter, NameId)] == [3] && 3 !in clean.strings
  {
    var linked := Linked(db, WELL_KNOWN);
    assert linked.columns == [[2], [2], [], [], [], []];
    var active, texts, reps :| Cleaned(linked, active, texts, reps, Linked(clean, WELL_KNOWN));
    OnlyTwo(linked.columns, active);
    OnlyB(db.strings, texts, reps);
    assert Numbered(["b"]) == map[1 := "b"] by {
      assert TextAt(["b"], 1) == "b";
    }
  }

  lemma OnlyTwo(columns: seq<seq<int>>, active: set<int>)
    requires columns == [[2], [2], [], [], [], []]
    requires forall id :: id in active <==> Referenced(columns, id)
    ensures active == {2}
  {
    forall id ensures id in active <==> id == 2 {
      if id == 2 {
        assert columns[0][0] == id;
        assert Referenced(columns, id);
      }
      if Referenced(columns, id) {
        var c, j :| 0 <= c < |columns| && 0 <= j < |columns[c]| && columns[c][j] == id;
        assert c == 0 || c == 1;
      }
    }
  }

  lemma FirstIsLess(reps: seq<int>)
    requires |reps| > 1 && forall i, j :: 0 <= i < j < |reps| ==> reps[i] < reps[j]
    ensures reps[0] < reps[1]
  {
  }

  lemma OnlyB(strings: map<int, string>, texts: seq<string>, reps: seq<int>)
    requires strings == map[1 := "a", 2 := "b", 3 := "c"] && IsSelection(strings, {2}, texts, reps)
    ensures texts == ["b"]
  {
    assert strings[2] in texts;
    if |reps| > 1 {
      FirstIsLess(reps);
    }
  }
}
