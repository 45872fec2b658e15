/** The repository over the `notes` table (db/crud.py): add, get, list,
    update, delete and the serialised view, with the table held as a map
    from id to row and the clock supplied by the caller. */
module Crud {
  import opened Wrappers
  import opened Models

  /** Page size `list` uses when the caller gives none. */
  const DefaultLimit: nat := 20

  /** The table, keyed by primary key, and the id the autoincrement key
      hands out next. */
  datatype Store = Store(rows: map<int, Note>, nextId: int)

  /** Every row is filed under its own id, and every id is positive and
      below the next one to be handed out. */
  predicate Valid(s: Store) {
    && 1 <= s.nextId
    && forall id | id in s.rows :: s.rows[id].id == id && 1 <= id < s.nextId
  }

  type ValidStore = s: Store | Valid(s) witness Store(map[], 1)

  /** A freshly created table. */
  const Empty: ValidStore := Store(map[], 1)

  // ───────────────────────── add ─────────────────────────

  /** The new table and the row as re-read after the commit. */
  datatype Inserted = Inserted(store: ValidStore, note: Note)

  /** `add`: insert one row under a fresh id, both timestamps set to `now`;
      `score`, `source` and `audioPath` take `add`'s keyword defaults. */
  function Add(s: ValidStore, now: Timestamp, text: string, emotion: string,
               score: Option<Score> := None, source: string := DefaultSource,
               audioPath: Option<string> := None): (r: Inserted)
    ensures r.note.id !in s.rows && r.note.id >= 1
    ensures r.store.rows == s.rows[r.note.id := r.note]
    ensures && r.note.text == text && r.note.emotion == emotion
            && r.note.score == score && r.note.source == source
            && r.note.audioPath == audioPath
    ensures r.note.createdAt == now && r.note.updatedAt == now
    ensures r.store.nextId > s.nextId
  {
    var note := Note(s.nextId, now, now, text, audioPath, emotion, score, source);
    Inserted(Store(s.rows[s.nextId := note], s.nextId + 1), note)
  }

  // ───────────────────────── get ─────────────────────────

  /** `get`: the row with that primary key, or `None`. */
  function Get(s: ValidStore, id: int): (r: Option<Note>)
    ensures r.None? <==> id !in s.rows
    ensures r.Some? ==> r.value == s.rows[id] && r.value.id == id
  {
    if id in s.rows then Some(s.rows[id]) else None
  }

  // ───────────────────────── list ────────────────────────

  predicate StrictlyIncreasing(xs: seq<int>) {
    forall i, j | 0 <= i < j < |xs| :: xs[i] < xs[j]
  }

  function Elems(xs: seq<int>): set<int> {
    set x | x in xs
  }

  /** The keys of `rows` in [lo, hi), in ascending order: a scan of the
      primary-key index. */
  function IdsBetween(rows: map<int, Note>, lo: int, hi: int): (ids: seq<int>)
    decreases hi - lo
    ensures forall i | 0 <= i < |ids| :: ids[i] in rows && lo <= ids[i] < hi
    ensures forall x | x in rows && lo <= x < hi :: x in ids
    ensures StrictlyIncreasing(ids)
  {
    if lo >= hi then []
    else IdsBetween(rows, lo, hi - 1) + (if hi - 1 in rows then [hi - 1] else [])
  }

  /** Every key of the table, ascending. */
  function AscendingIds(s: ValidStore): (ids: seq<int>)
    ensures StrictlyIncreasing(ids)
    ensures Elems(ids) == s.rows.Keys
    ensures |ids| == |s.rows|
  {
    var ids := IdsBetween(s.rows, 1, s.nextId);
    assert Elems(ids) == s.rows.Keys;
    DistinctCardinality(ids);
    ids
  }

  /** How many ids of `keys` sort before `x`: the position of `x` in
      `ORDER BY id ASC`. */
  ghost function Rank(keys: set<int>, x: int): nat {
    |set k | k in keys && k < x|
  }

  /** Number of rows `OFFSET offset LIMIT limit` keeps out of `n`. */
  function Window(n: nat, limit: Option<nat>, offset: nat): nat {
    var available := if offset <= n then n - offset else 0;
    match limit
    case None => available
    case Some(m) => if m < available then m else available
  }

  /** `OFFSET offset LIMIT limit` over an already ordered sequence;
      `limit = None` keeps everything after the offset. */
  function Page<T>(xs: seq<T>, limit: Option<nat>, offset: nat): (r: seq<T>)
    ensures |r| == Window(|xs|, limit, offset)
    ensures forall i | 0 <= i < |r| :: offset + i < |xs| && r[i] == xs[offset + i]
  {
    var rest := if offset <= |xs| then xs[offset..] else [];
    match limit
    case None => rest
    case Some(m) => if m < |rest| then rest[..m] else rest
  }

  /** `list`: rows ordered by id ascending, `offset` skipped, at most
      `limit` kept. The result holds exactly the stored rows whose rank in
      that order lies in [offset, offset + |r|). */
  function List(s: ValidStore, limit: Option<nat> := Some(DefaultLimit), offset: nat := 0): (r: seq<Note>)
    ensures |r| == Window(|s.rows|, limit, offset)
    ensures forall i | 0 <= i < |r| :: r[i].id in s.rows && s.rows[r[i].id] == r[i]
    ensures forall i, j | 0 <= i < j < |r| :: r[i].id < r[j].id
    ensures forall i | 0 <= i < |r| :: Rank(s.rows.Keys, r[i].id) == offset + i
  {
    var page := Page(AscendingIds(s), limit, offset);
    PageOfAscending(s, limit, offset);
    RowsOf(s, page)
  }

  /** The rows filed under `ids`, in the same order. */
  function RowsOf(s: ValidStore, ids: seq<int>): (r: seq<Note>)
    requires forall i | 0 <= i < |ids| :: ids[i] in s.rows
    ensures |r| == |ids|
    ensures forall i | 0 <= i < |r| :: r[i] == s.rows[ids[i]] && r[i].id == ids[i]
  {
    seq(|ids|, i requires 0 <= i < |ids| => s.rows[ids[i]])
  }

  // ──────────────────────── update ───────────────────────

  /** The keyword arguments of `update`: each field is either supplied
      (`Some`) or left alone (`None`). The nullable columns take
      `Some(None)` to be set to NULL. */
  datatype Patch = Patch(
    text: Option<string> := None,
    emotion: Option<string> := None,
    score: Option<Option<Score>> := None,
    source: Option<string> := None,
    audioPath: Option<Option<string>> := None,
    createdAt: Option<Timestamp> := None)

  /** The supplied value, or the current one when nothing is supplied. */
  function Pick<T>(supplied: Option<T>, current: T): T {
    match supplied
    case Some(v) => v
    case None => current
  }

  /** The row after `UPDATE ... SET <fields>`: supplied columns take the
      supplied value, `updated_at` takes `now` through its `onupdate`
      default, everything else keeps its value. */
  function Apply(n: Note, p: Patch, now: Timestamp): (m: Note)
    ensures m.id == n.id && m.updatedAt == now
    ensures p.text.None? ==> m.text == n.text
    ensures p.emotion.None? ==> m.emotion == n.emotion
    ensures p.score.None? ==> m.score == n.score
    ensures p.source.None? ==> m.source == n.source
    ensures p.audioPath.None? ==> m.audioPath == n.audioPath
    ensures p.createdAt.None? ==> m.createdAt == n.createdAt
    ensures p.text.Some? ==> m.text == p.text.value
    ensures p.emotion.Some? ==> m.emotion == p.emotion.value
    ensures p.score.Some? ==> m.score == p.score.value
    ensures p.source.Some? ==> m.source == p.source.value
    ensures p.audioPath.Some? ==> m.audioPath == p.audioPath.value
    ensures p.createdAt.Some? ==> m.createdAt == p.createdAt.value
  {
    Note(n.id,
         Pick(p.createdAt, n.createdAt),
         now,
         Pick(p.text, n.text),
         Pick(p.audioPath, n.audioPath),
         Pick(p.emotion, n.emotion),
         Pick(p.score, n.score),
         Pick(p.source, n.source))
  }

  /** The new table and the row as re-read by `get` (`None` if absent). */
  datatype Updated = Updated(store: ValidStore, note: Option<Note>)

  /** `update`: patch the row with that id, if any, then re-read it. */
  function Update(s: ValidStore, id: int, p: Patch, now: Timestamp): (r: Updated)
    ensures id !in s.rows ==> r.store == s && r.note == None
    ensures id in s.rows ==> r.store.rows == s.rows[id := Apply(s.rows[id], p, now)]
    ensures r.store.nextId == s.nextId
    ensures r.note == Get(r.store, id)
  {
    var rows := if id in s.rows then s.rows[id := Apply(s.rows[id], p, now)] else s.rows;
    var t := Store(rows, s.nextId);
    Updated(t, Get(t, id))
  }

  // ──────────────────────── delete ───────────────────────

  /** `delete`: drop the row with that id; an absent id changes nothing. */
  function Delete(s: ValidStore, id: int): (t: ValidStore)
    ensures t.rows.Keys == s.rows.Keys - {id}
    ensures forall k | k in t.rows :: t.rows[k] == s.rows[k]
    ensures t.nextId == s.nextId
    ensures id !in s.rows ==> t == s
  {
    Store(s.rows - {id}, s.nextId)
  }

  // ──────────────────── serialised view ──────────────────

  /** `NoteDTO`: the row with its timestamps rendered as strings. */
  datatype NoteDto = NoteDto(
    id: int,
    createdAt: string,
    updatedAt: string,
    text: string,
    audioPath: Option<string>,
    emotion: string,
    score: Option<Score>,
    source: string)

  /** `_to_dto`: a field-for-field projection; `iso` renders a timestamp
      with seconds precision. */
  function ToDto(n: Note, iso: Timestamp -> string): (d: NoteDto)
    ensures && d.id == n.id && d.text == n.text && d.audioPath == n.audioPath
            && d.emotion == n.emotion && d.score == n.score && d.source == n.source
    ensures d.createdAt == iso(n.createdAt) && d.updatedAt == iso(n.updatedAt)
  {
    NoteDto(n.id, iso(n.createdAt), iso(n.updatedAt), n.text, n.audioPath,
            n.emotion, n.score, n.source)
  }

  /** Reads a serialised row back, parsing its timestamps as the
      maintenance script does with `fromisoformat`. */
  function FromDto(d: NoteDto, parse: string -> Option<Timestamp>): (r: Option<Note>)
    ensures r.Some? ==> r.value.id == d.id && r.value.text == d.text
  {
    match (parse(d.createdAt), parse(d.updatedAt))
    case (Some(c), Some(u)) =>
      Some(Note(d.id, c, u, d.text, d.audioPath, d.emotion, d.score, d.source))
    case _ => None
  }

  // ──────────────────────── helpers ──────────────────────

  /** A strictly increasing sequence has as many distinct elements as
      entries. */
  lemma {:induction false} DistinctCardinality(xs: seq<int>)
    requires StrictlyIncreasing(xs)
    ensures |Elems(xs)| == |xs|
  {
    if xs != [] {
      var init := xs[..|xs| - 1];
      var last := xs[|xs| - 1];
      assert Elems(xs) == Elems(init) + {last};
      assert last !in Elems(init);
      DistinctCardinality(init);
    }
  }

  /** In an ascending enumeration of `keys`, the entry at position `i` has
      exactly `i` keys below it. */
  lemma RankOfAscending(ids: seq<int>, keys: set<int>, i: nat)
    requires StrictlyIncreasing(ids) && Elems(ids) == keys && i < |ids|
    ensures Rank(keys, ids[i]) == i
  {
    var below := set k | k in keys && k < ids[i];
    var prefix := ids[..i];
    forall k | k in below ensures k in Elems(prefix) {
      var m :| 0 <= m < |ids| && ids[m] == k;
      assert m < i;
      assert prefix[m] == k;
    }
    forall k | k in Elems(prefix) ensures k in below {
      var m :| 0 <= m < |prefix| && prefix[m] == k;
      assert ids[m] == k;
    }
    assert below == Elems(prefix);
    DistinctCardinality(prefix);
  }

  /** The page `list` cuts out of the ascending ids holds stored ids, in
      ascending order, whose ranks start at `offset`. */
  lemma PageOfAscending(s: ValidStore, limit: Option<nat>, offset: nat)
    ensures var page := Page(AscendingIds(s), limit, offset);
            && (forall i | 0 <= i < |page| :: page[i] in s.rows)
            && (forall i, j | 0 <= i < j < |page| :: page[i] < page[j])
            && (forall i | 0 <= i < |page| :: Rank(s.rows.Keys, page[i]) == offset + i)
  {
    var page := Page(AscendingIds(s), limit, offset);
    forall i | 0 <= i < |page|
      ensures page[i] in s.rows && Rank(s.rows.Keys, page[i]) == offset + i
    {
      PageEntryOfAscending(s, limit, offset, i);
    }
  }

  /** Entry `i` of that page is the stored id of rank `offset + i`. */
  lemma PageEntryOfAscending(s: ValidStore, limit: Option<nat>, offset: nat, i: nat)
    requires i < |Page(AscendingIds(s), limit, offset)|
    ensures var page := Page(AscendingIds(s), limit, offset);
            page[i] in s.rows && Rank(s.rows.Keys, page[i]) == offset + i
  {
    var ids := AscendingIds(s);
    assert Page(ids, limit, offset)[i] == ids[offset + i];
    assert ids[offset + i] in Elems(ids);
    RankOfAscending(ids, s.rows.Keys, offset + i);
  }
}
