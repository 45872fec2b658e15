/** Properties of the note repository that relate several operations:
    what a later `get` or `list` sees after `add`, `update` and `delete`,
    how patches compose, how timestamps evolve, and the serialised view's
    round trip. */
module CrudProperties {
  import opened Wrappers
  import opened Models
  import opened Crud

  // ─────────────────────── add / get ───────────────────────

  /** The row `add` returns is the row a later `get` finds, and every other
      id reads as before. */
  lemma AddThenGet(s: ValidStore, now: Timestamp, text: string, emotion: string,
                   score: Option<Score>, source: string, audioPath: Option<string>, other: int)
    ensures var r := Add(s, now, text, emotion, score, source, audioPath);
            && Get(r.store, r.note.id) == Some(r.note)
            && (other != r.note.id ==> Get(r.store, other) == Get(s, other))
  {
  }

  /** Two successive inserts never share an id. */
  lemma AddTwiceDistinctIds(s: ValidStore, now: Timestamp, text: string, emotion: string)
    ensures var a := Add(s, now, text, emotion);
            var b := Add(a.store, now, text, emotion);
            a.note.id < b.note.id && a.note.id in b.store.rows && b.note.id in b.store.rows
  {
  }

  /** `add` neither checks nor truncates the declared column widths: the
      row fits them exactly when the arguments do. */
  lemma AddWithinDeclaredWidths(s: ValidStore, now: Timestamp, text: string, emotion: string,
                                score: Option<Score>, source: string, audioPath: Option<string>)
    ensures var r := Add(s, now, text, emotion, score, source, audioPath);
            WithinDeclaredWidths(r.note) <==>
              (&& |emotion| <= EmotionWidth && |source| <= SourceWidth
               && (audioPath.Some? ==> |audioPath.value| <= AudioPathWidth))
  {
  }

  // ───────────────────────── list ──────────────────────────

  /** An empty table lists as the empty sequence, whatever the page. */
  lemma ListOfEmpty(limit: Option<nat>, offset: nat)
    ensures List(Empty, limit, offset) == []
  {
  }

  /** Ranks of distinct stored ids are ordered as the ids are. */
  lemma RankStrictlyMonotone(keys: set<int>, a: int, b: int)
    requires a in keys && a < b
    ensures Rank(keys, a) < Rank(keys, b)
  {
    var below := set k | k in keys && k < a;
    var upTo := set k | k in keys && k < b;
    SubsetCardinality(below, upTo - {a});
    assert |upTo - {a}| == |upTo| - 1;
  }

  /** A non-empty set has an element. */
  lemma NonEmptyHasElement(a: set<int>)
    requires a != {}
    ensures exists x :: x in a
  {
    if forall x :: x !in a {
      assert false;
    }
  }

  lemma {:induction false} SubsetCardinality(a: set<int>, b: set<int>)
    requires a <= b
    ensures |a| <= |b|
    decreases |b|
  {
    if a != {} {
      NonEmptyHasElement(a);
      var x :| x in a;
      SubsetCardinality(a - {x}, b - {x});
    }
  }

  /** Completeness of `list`: every stored row whose rank falls inside the
      returned window is at its rank's position. */
  lemma ListCovers(s: ValidStore, limit: Option<nat>, offset: nat, x: int)
    requires x in s.rows
    requires offset <= Rank(s.rows.Keys, x) < offset + |List(s, limit, offset)|
    ensures List(s, limit, offset)[Rank(s.rows.Keys, x) - offset] == s.rows[x]
  {
    var r := List(s, limit, offset);
    var i := Rank(s.rows.Keys, x) - offset;
    var y := r[i].id;
    assert Rank(s.rows.Keys, y) == Rank(s.rows.Keys, x);
    if y < x {
      RankStrictlyMonotone(s.rows.Keys, y, x);
    } else if x < y {
      RankStrictlyMonotone(s.rows.Keys, x, y);
    }
  }

  /** Position i of a page holds the row at position offset + i of the full
      listing. */
  lemma PageEntryIsShiftedEntry(s: ValidStore, limit: Option<nat>, offset: nat, i: nat)
    requires i < |List(s, limit, offset)|
    ensures offset + i < |List(s, None, 0)|
    ensures List(s, limit, offset)[i] == List(s, None, 0)[offset + i]
  {
    var r := List(s, limit, offset);
    var all := List(s, None, 0);
    assert |all| == |s.rows|;
    ListCovers(s, None, 0, r[i].id);
  }

  /** A page is as long as the same window of the full listing. */
  lemma WindowLength(s: ValidStore, limit: Option<nat>, offset: nat)
    ensures |List(s, limit, offset)| == |Page(List(s, None, 0), limit, offset)|
  {
    assert |List(s, None, 0)| == |s.rows|;
  }

  lemma EqualByIndex<T>(a: seq<T>, b: seq<T>)
    requires |a| == |b|
    requires forall i | 0 <= i < |a| :: a[i] == b[i]
    ensures a == b
  {
  }

  /** Every page is the corresponding window of the full ascending listing. */
  lemma ListIsWindowOfAll(s: ValidStore, limit: Option<nat>, offset: nat)
    ensures List(s, limit, offset) == Page(List(s, None, 0), limit, offset)
  {
    var all := List(s, None, 0);
    var r := List(s, limit, offset);
    var w := Page(all, limit, offset);
    WindowLength(s, limit, offset);
    forall i | 0 <= i < |r| ensures r[i] == w[i] {
      PageEntryIsShiftedEntry(s, limit, offset, i);
    }
    EqualByIndex(r, w);
  }

  /** A limit at least as large as what is left after the offset cuts
      nothing. */
  lemma ListLimitBeyondSize(s: ValidStore, limit: nat, offset: nat)
    requires offset + limit >= |s.rows|
    ensures List(s, Some(limit), offset) == List(s, None, offset)
  {
    ListIsWindowOfAll(s, Some(limit), offset);
    ListIsWindowOfAll(s, None, offset);
  }

  lemma {:induction false} IdsBetweenIgnoresAbove(rows: map<int, Note>, x: int, v: Note, lo: int, hi: int)
    requires hi <= x
    ensures IdsBetween(rows[x := v], lo, hi) == IdsBetween(rows, lo, hi)
    decreases hi - lo
  {
    if lo < hi {
      IdsBetweenIgnoresAbove(rows, x, v, lo, hi - 1);
    }
  }

  /** The keys after `add` are the old keys followed by the new id. */
  lemma AddAppendsId(s: ValidStore, now: Timestamp, text: string, emotion: string,
                     score: Option<Score>, source: string, audioPath: Option<string>)
    ensures var r := Add(s, now, text, emotion, score, source, audioPath);
            AscendingIds(r.store) == AscendingIds(s) + [r.note.id]
  {
    var r := Add(s, now, text, emotion, score, source, audioPath);
    var rows := s.rows[s.nextId := r.note];
    assert r.note.id == s.nextId && r.store == Store(rows, s.nextId + 1);
    calc {
      AscendingIds(r.store);
      IdsBetween(rows, 1, s.nextId + 1);
      IdsBetween(rows, 1, s.nextId) + [s.nextId];
      { IdsBetweenIgnoresAbove(s.rows, s.nextId, r.note, 1, s.nextId); }
      IdsBetween(s.rows, 1, s.nextId) + [s.nextId];
      AscendingIds(s) + [r.note.id];
    }
  }

  /** Without limit or offset, `list` is every row in ascending id order. */
  lemma ListAll(s: ValidStore)
    ensures List(s, None, 0) == RowsOf(s, AscendingIds(s))
  {
    assert Page(AscendingIds(s), None, 0) == AscendingIds(s);
  }

  lemma RowsOfSnoc(s: ValidStore, t: ValidStore, ids: seq<int>, x: int)
    requires forall i | 0 <= i < |ids| :: ids[i] in s.rows && ids[i] in t.rows && t.rows[ids[i]] == s.rows[ids[i]]
    requires x in t.rows
    ensures RowsOf(t, ids + [x]) == RowsOf(s, ids) + [t.rows[x]]
  {
    var l := RowsOf(t, ids + [x]);
    var r := RowsOf(s, ids) + [t.rows[x]];
    assert |l| == |r|;
    forall i | 0 <= i < |l| ensures l[i] == r[i] {
      if i < |ids| {
        assert (ids + [x])[i] == ids[i];
      }
    }
  }

  /** A new row lands at the end of the id-ascending listing: ids are
      handed out in increasing order. */
  lemma AddAppendsToList(s: ValidStore, now: Timestamp, text: string, emotion: string,
                         score: Option<Score>, source: string, audioPath: Option<string>)
    ensures var r := Add(s, now, text, emotion, score, source, audioPath);
            List(r.store, None, 0) == List(s, None, 0) + [r.note]
  {
    var r := Add(s, now, text, emotion, score, source, audioPath);
    AddAppendsId(s, now, text, emotion, score, source, audioPath);
    ListAll(s);
    ListAll(r.store);
    var ids := AscendingIds(s);
    assert forall i | 0 <= i < |ids| :: ids[i] in Elems(ids);
    RowsOfSnoc(s, r.store, ids, r.note.id);
  }

  // ──────────────────────── update ─────────────────────────

  /** Merge of two successive patches: the later one wins where both
      supply a field. */
  function Then(p: Patch, q: Patch): Patch {
    Patch(
      if q.text.Some? then q.text else p.text,
      if q.emotion.Some? then q.emotion else p.emotion,
      if q.score.Some? then q.score else p.score,
      if q.source.Some? then q.source else p.source,
      if q.audioPath.Some? then q.audioPath else p.audioPath,
      if q.createdAt.Some? then q.createdAt else p.createdAt)
  }

  /** Two updates in a row act as one update with the merged fields at the
      later clock. */
  lemma ApplyComposes(n: Note, p: Patch, q: Patch, t1: Timestamp, t2: Timestamp)
    ensures Apply(Apply(n, p, t1), q, t2) == Apply(n, Then(p, q), t2)
  {
  }

  /** Re-applying the same patch at the same clock changes nothing more. */
  lemma ApplyIdempotent(n: Note, p: Patch, now: Timestamp)
    ensures Apply(Apply(n, p, now), p, now) == Apply(n, p, now)
  {
  }

  /** An update that supplies no field only refreshes `updated_at`. */
  lemma ApplyNothing(n: Note, now: Timestamp)
    ensures Apply(n, Patch(), now) == n.(updatedAt := now)
  {
  }

  /** `update` leaves every other row as it was. */
  lemma UpdateOnlyTouchesItsRow(s: ValidStore, id: int, p: Patch, now: Timestamp, other: int)
    requires other != id
    ensures Get(Update(s, id, p, now).store, other) == Get(s, other)
  {
  }

  /** An update of only `text` changes `text` and `updated_at` and nothing
      else. */
  lemma UpdateTextOnly(s: ValidStore, id: int, text: string, now: Timestamp)
    requires id in s.rows
    ensures Update(s, id, Patch(text := Some(text)), now).note
            == Some(s.rows[id].(text := text, updatedAt := now))
  {
  }

  // ──────────────────────── delete ─────────────────────────

  /** After `delete`, `get` of that id finds nothing and every other id
      reads as before. */
  lemma DeleteThenGet(s: ValidStore, id: int, other: int)
    ensures Get(Delete(s, id), id) == None
    ensures other != id ==> Get(Delete(s, id), other) == Get(s, other)
  {
  }

  /** Deleting the same id twice is the same as deleting it once. */
  lemma DeleteIdempotent(s: ValidStore, id: int)
    ensures Delete(Delete(s, id), id) == Delete(s, id)
  {
  }

  /** `add` after `delete` hands out an id no remaining row holds, and the
      new row is readable. With the model's counter, which never goes back,
      the new id is also never the deleted one. */
  lemma AddAfterDelete(s: ValidStore, id: int, now: Timestamp, text: string, emotion: string)
    ensures var r := Add(Delete(s, id), now, text, emotion);
            r.note.id !in Delete(s, id).rows && Get(r.store, r.note.id) == Some(r.note)
    ensures var r := Add(Delete(s, id), now, text, emotion);
            r.note.id != id || id !in s.rows
    ensures var r := Add(Delete(s, id), now, text, emotion);
            r.note.id !in s.rows && Get(r.store, r.note.id) == Some(r.note)
  {
  }

  // ────────────────────── timestamps ───────────────────────

  /** Every row was created no later than its last update, and neither is
      in the future of `now`. */
  predicate Chronological(s: Store, now: Timestamp) {
    forall id | id in s.rows :: s.rows[id].createdAt <= s.rows[id].updatedAt <= now
  }

  /** With a clock that does not run backwards, `add` keeps the table
      chronological. */
  lemma AddKeepsChronology(s: ValidStore, before: Timestamp, now: Timestamp,
                           text: string, emotion: string)
    requires Chronological(s, before) && before <= now
    ensures Chronological(Add(s, now, text, emotion).store, now)
  {
  }

  /** With a clock that does not run backwards, `update` keeps the table
      chronological unless the patch moves `created_at` past `now`. */
  lemma UpdateKeepsChronology(s: ValidStore, before: Timestamp, now: Timestamp,
                              id: int, p: Patch)
    requires Chronological(s, before) && before <= now
    requires p.createdAt.Some? ==> p.createdAt.value <= now
    ensures Chronological(Update(s, id, p, now).store, now)
  {
  }

  /** Setting `created_at` is not checked against `updated_at`: a patch
      that moves it into the future leaves the row created after its last
      update. */
  lemma CreatedAtPatchOutrunsUpdatedAt()
    ensures var s := Add(Empty, 5, "note", "joy").store;
            var t := Update(s, 1, Patch(createdAt := Some(10)), 6).store;
            Chronological(s, 5) && !Chronological(t, 6) && t.rows[1].createdAt > t.rows[1].updatedAt
  {
  }

  /** Every update stamps the row with the current clock, so with a
      monotone clock `updated_at` never decreases. */
  lemma UpdateRefreshesUpdatedAt(s: ValidStore, id: int, p: Patch, now: Timestamp)
    requires id in s.rows && s.rows[id].updatedAt <= now
    ensures var r := Update(s, id, p, now);
            r.note.Some? && r.note.value.updatedAt == now && s.rows[id].updatedAt <= r.note.value.updatedAt
  {
  }

  // ──────────────────── serialised view ────────────────────

  /** When `parse` inverts `iso`, the serialised view loses nothing. */
  lemma DtoRoundTrip(n: Note, iso: Timestamp -> string, parse: string -> Option<Timestamp>)
    requires forall t: Timestamp :: parse(iso(t)) == Some(t)
    ensures FromDto(ToDto(n, iso), parse) == Some(n)
  {
    assert parse(iso(n.createdAt)) == Some(n.createdAt);
    assert parse(iso(n.updatedAt)) == Some(n.updatedAt);
  }
}
