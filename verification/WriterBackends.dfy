/** The writers of one database file.  Each backend has a connection of its own:
    in the default mode its rows go to temporary tables, which a flush copies to
    the main ones and empties; with direct writing they go to the main tables
    (rpd_tracer/StackFrameTable.cpp:25-76, rpd_tracer/OpTable.cpp:89-101). */
module WriterBackends {
  import opened Wrappers
  import opened SqlSchema
  import opened CollectedRows
  import RowCodec

  // ---- tables ----------------------------------------------------------

  /** A row under its primary key. */
  datatype Record = Record(id: int, row: Written)

  /** The tables of a file or of a connection's temporary space; last is the
      highest id each table ever had, which AUTOINCREMENT counts on from, also
      after a delete. */
  datatype File = File(records: seq<Record>, last: map<SqlTable, int>)

  const EMPTY_FILE := File([], map[])

  function LastId(f: File, t: SqlTable): int {
    if t in f.last then f.last[t] else 0
  }

  predicate Taken(f: File, t: SqlTable, id: int) {
    exists i :: 0 <= i < |f.records| && f.records[i].row.table == t && f.records[i].id == id
  }

  function Append(f: File, id: int, w: Written): File {
    File(f.records + [Record(id, w)], f.last[w.table := if id > LastId(f, w.table) then id else LastId(f, w.table)])
  }

  /** The key a row brings, or the next one. */
  function IdFor(f: File, w: Written): int {
    match KeyOf(w)
    case Some(k) => k.id
    case None => LastId(f, w.table) + 1
  }

  predicate KeyTaken(f: File, w: Written) {
    KeyOf(w).Some? && Taken(f, w.table, KeyOf(w).value.id)
  }

  function OfTable(rs: seq<Record>, t: SqlTable): seq<Record> {
    if rs == [] then []
    else OfTable(rs[..|rs| - 1], t) + if rs[|rs| - 1].row.table == t then [rs[|rs| - 1]] else []
  }

  function RowsOf(rs: seq<Record>): (ws: seq<Written>)
    ensures |ws| == |rs| && forall i :: 0 <= i < |rs| ==> ws[i] == rs[i].row
  {
    seq(|rs|, i requires 0 <= i < |rs| => rs[i].row)
  }

  // ---- a flush ---------------------------------------------------------

  /** Some id the statement copies is taken: all of it is refused. */
  predicate Refused(main: File, rs: seq<Record>, t: SqlTable) {
    CopiesId(t) && exists i :: 0 <= i < |rs| && Taken(main, t, rs[i].id)
  }

  function AppendAll(main: File, rs: seq<Record>, t: SqlTable): File {
    if rs == [] then main
    else
      var n := |rs| - 1;
      var sofar := AppendAll(main, rs[..n], t);
      Append(sofar, if CopiesId(t) then rs[n].id else LastId(sofar, t) + 1, rs[n].row)
  }

  /** insert into ... select ... from temp_...; the error is only logged. */
  function CopyTable(main: File, rs: seq<Record>, t: SqlTable): File {
    if Refused(main, rs, t) then main else AppendAll(main, rs, t)
  }

  function Dropped(main: File, rs: seq<Record>, t: SqlTable): seq<Written> {
    if Refused(main, rs, t) then RowsOf(rs) else []
  }

  // ---- the backends ----------------------------------------------------

  datatype Backend = Backend(table: RowCodec.Table, direct: bool, temp: File)

  /** `lost` is history: rows that were written and are nowhere any more. */
  datatype State = State(main: File, backends: seq<Backend>, lost: seq<Written>)

  datatype Event = Write(backend: nat, row: Written) | Flush(backend: nat)

  predicate Enabled(s: State, e: Event) {
    e.backend < |s.backends| && (e.Write? ==> e.row.table in Into(s.backends[e.backend].table))
  }

  function Target(s: State, i: nat): File
    requires i < |s.backends|
  {
    if s.backends[i].direct then s.main else s.backends[i].temp
  }

  function WithTemp(s: State, i: nat, temp: File): State
    requires i < |s.backends|
  {
    s.(backends := s.backends[i := s.backends[i].(temp := temp)])
  }

  /** One insert statement of writeBatch() for one row. */
  function Put(s: State, i: nat, w: Written): State
    requires i < |s.backends|
  {
    var f := Target(s, i);
    if KeyTaken(f, w) then s.(lost := s.lost + [w])
    else if s.backends[i].direct then s.(main := Append(f, IdFor(f, w), w))
    else WithTemp(s, i, Append(f, IdFor(f, w), w))
  }

  /** One copy statement of flush(). */
  function Copied(s: State, i: nat, t: SqlTable): State
    requires i < |s.backends|
  {
    var rs := OfTable(s.backends[i].temp.records, t);
    s.(main := CopyTable(s.main, rs, t), lost := s.lost + Dropped(s.main, rs, t))
  }

  /** The delete statements of flush(). */
  function Emptied(s: State, i: nat): State
    requires i < |s.backends|
  {
    WithTemp(s, i, s.backends[i].temp.(records := []))
  }

  function Flushed(s: State, i: nat): State
    requires i < |s.backends|
  {
    var ts := Into(s.backends[i].table);
    if s.backends[i].direct then s
    else
      var one := Copied(s, i, ts[0]);
      Emptied(if |ts| == 1 then one else Copied(one, i, ts[1]), i)
  }

  function Step(s: State, e: Event): State
    requires Enabled(s, e)
  {
    match e
    case Write(i, w) => Put(s, i, w)
    case Flush(i) => Flushed(s, i)
  }

  ghost predicate Initial(s: State) {
    s.main == EMPTY_FILE && s.lost == [] && forall i :: 0 <= i < |s.backends| ==> s.backends[i].temp == EMPTY_FILE
  }

  /** Any interleaving of any number of backends, over the life of the file:
      concurrent processes and later ones that append to it. */
  ghost predicate IsRun(states: seq<State>, events: seq<Event>) {
    && |states| == |events| + 1
    && Initial(states[0])
    && forall i :: 0 <= i < |events| ==> Enabled(states[i], events[i]) && states[i + 1] == Step(states[i], events[i])
  }

  /** Every row written so far. */
  function WrittenRows(events: seq<Event>): seq<Written> {
    if events == [] then []
    else WrittenRows(events[..|events| - 1])
         + if events[|events| - 1].Write? then [events[|events| - 1].row] else []
  }

  // ---- the same on objects ---------------------------------------------

  class Database {
    var file: File

    constructor ()
      ensures file == EMPTY_FILE
    {
      file := EMPTY_FILE;
    }
  }

  class SqliteBackend {
    const db: Database
    const table: RowCodec.Table
    const m_directWrite: bool
    var temp: File
    ghost var lost: seq<Written>

    /** A state with only this backend. */
    ghost function View(): State
      reads this, db
    {
      State(db.file, [Backend(table, m_directWrite, temp)], lost)
    }

    constructor (db: Database, table: RowCodec.Table, directWrite: bool)
      ensures this.db == db && this.table == table && m_directWrite == directWrite
      ensures temp == EMPTY_FILE && lost == []
    {
      this.db, this.table, m_directWrite, temp, lost := db, table, directWrite, EMPTY_FILE, [];
    }

    method InsertRow(w: Written)
      modifies this, db
      ensures View() == Put(old(View()), 0, w)
    {
      var f := if m_directWrite then db.file else temp;
      if KeyTaken(f, w) {
        lost := lost + [w];
        return;
      }
      if m_directWrite {
        db.file := Append(f, IdFor(f, w), w);
      } else {
        temp := Append(f, IdFor(f, w), w);
      }
    }

    method FlushRows()
      modifies this, db
      ensures View() == Flushed(old(View()), 0)
    {
      if m_directWrite {
        return;
      }
      var into := Into(table);
      for k := 0 to |into|
        invariant temp == old(temp)
        invariant View() == if k == 0 then old(View())
                            else if k == 1 then Copied(old(View()), 0, into[0])
                            else Copied(Copied(old(View()), 0, into[0]), 0, into[1])
      {
        var rs := OfTable(temp.records, into[k]);
        lost := lost + Dropped(db.file, rs, into[k]);
        db.file := CopyTable(db.file, rs, into[k]);
      }
      temp := temp.(records := []);
    }
  }
}
