/** The repository's test suite (tests/test_crud.py) restated as lemmas
    about the model: each lemma replays one test's calls and proves what
    the test asserts. */
module CrudScenarios {
  import opened Wrappers
  import opened Models
  import opened Crud
  import opened CrudProperties

  /** Three rows added in a row land at the end of the listing in the order
      they were added. */
  lemma ThreeAddsAppend(s: ValidStore, a: Inserted, b: Inserted, c: Inserted,
                        texts: seq<string>, emotion: string, source: string)
    requires |texts| == 3
    requires a == Add(s, 1, texts[0], emotion, None, source, None)
    requires b == Add(a.store, 2, texts[1], emotion, None, source, None)
    requires c == Add(b.store, 3, texts[2], emotion, None, source, None)
    ensures List(c.store, None, 0) == List(s, None, 0) + [a.note, b.note, c.note]
  {
    AddAppendsToList(s, 1, texts[0], emotion, None, source, None);
    AddAppendsToList(a.store, 2, texts[1], emotion, None, source, None);
    AddAppendsToList(b.store, 3, texts[2], emotion, None, source, None);
    SnocThree(List(s, None, 0), a.note, b.note, c.note);
  }

  lemma SnocThree<T>(xs: seq<T>, a: T, b: T, c: T)
    ensures xs + [a] + [b] + [c] == xs + [a, b, c]
  {
  }

  /** Three notes added to an empty table list in the order they were
      added. */
  lemma ThreeNotesListed(s: ValidStore, a: Inserted, b: Inserted, c: Inserted)
    requires s.rows == map[]
    requires a == Add(s, 1, "note 0", "neutral", source := "edit")
    requires b == Add(a.store, 2, "note 1", "neutral", source := "edit")
    requires c == Add(b.store, 3, "note 2", "neutral", source := "edit")
    ensures List(c.store, None, 0) == [a.note, b.note, c.note]
  {
    assert List(s, None, 0) == [] by {
      assert |List(s, None, 0)| == 0;
    }
    ThreeAddsAppend(s, a, b, c, ["note 0", "note 1", "note 2"], "neutral", "edit");
  }

  /** Three notes added to an empty table: the default page holds all three
      and the page of size one after one skipped row is "note 1". */
  lemma ListAndPagination(s: ValidStore, a: Inserted, b: Inserted, c: Inserted)
    requires s.rows == map[]
    requires a == Add(s, 1, "note 0", "neutral", source := "edit")
    requires b == Add(a.store, 2, "note 1", "neutral", source := "edit")
    requires c == Add(b.store, 3, "note 2", "neutral", source := "edit")
    ensures |List(c.store)| == 3
    ensures |List(c.store, Some(1), 1)| == 1 && List(c.store, Some(1), 1)[0].text == "note 1"
  {
    ThreeNotesListed(s, a, b, c);
    var all := [a.note, b.note, c.note];
    ListIsWindowOfAll(c.store, Some(1), 1);
    assert Page(all, Some(1), 1) == [b.note];
  }

  /** Updating text, emotion and score of a fresh note returns the new
      values, keeps the default source and refreshes `updated_at`. */
  lemma UpdateNote(s: ValidStore)
    ensures var a := Add(s, 1, "orig", "sad");
            var u := Update(a.store, a.note.id,
                            Patch(text := Some("updated"), emotion := Some("joy"), score := Some(Some(0.99))), 2);
            && u.note.Some?
            && u.note.value.text == "updated" && u.note.value.emotion == "joy"
            && u.note.value.score == Some(0.99) && u.note.value.source == "voice"
            && u.note.value.updatedAt == 2 > a.note.updatedAt
  {
  }

  /** A deleted note can no longer be read. */
  lemma DeleteNote(s: ValidStore)
    ensures var a := Add(s, 1, "to delete", "sad");
            Get(Delete(a.store, a.note.id), a.note.id) == None
  {
  }

  /** An id the table never handed out reads as `None`, and updating it
      changes nothing and returns `None`. */
  lemma UnissuedId(s: ValidStore, id: int, p: Patch, now: Timestamp)
    requires id >= s.nextId
    ensures Get(s, id) == None
    ensures Update(s, id, p, now) == Updated(s, None)
  {
  }

  /** `get(9999)` and `update(12345, text="ghost")` on a fresh table. */
  lemma MissingIdsOnFreshTable(now: Timestamp)
    ensures Get(Empty, 9999) == None && Get(Empty, 987654321) == None
    ensures Update(Empty, 12345, Patch(text := Some("ghost")), now).note == None
  {
    UnissuedId(Empty, 12345, Patch(text := Some("ghost")), now);
  }

  /** Every argument of `add` is kept, and both timestamps are set. */
  lemma AddWithAllFields(s: ValidStore)
    ensures var a := Add(s, 7, "edge–case", "sad", Some(0.01), "import", Some("/tmp/edge.wav"));
            && a.note.text == "edge–case" && a.note.emotion == "sad"
            && a.note.score == Some(0.01) && a.note.source == "import"
            && a.note.audioPath == Some("/tmp/edge.wav")
            && a.note.createdAt == 7 && a.note.updatedAt == 7
  {
  }

  /** Updating only the text keeps emotion, the absent score and the
      default source. */
  lemma UpdatePartialFields(s: ValidStore)
    ensures var a := Add(s, 1, "orig-text", "joy");
            var u := Update(a.store, a.note.id, Patch(text := Some("only-text-changed")), 2);
            && u.note.Some?
            && u.note.value.text == "only-text-changed" && u.note.value.emotion == "joy"
            && u.note.value.score == None && u.note.value.source == "voice"
  {
  }

  /** Deleting an absent id changes nothing, and a following `add` still
      hands out a non-zero id. */
  lemma DeleteNonexistentIsSilent(s: ValidStore)
    requires 123456 !in s.rows
    ensures Delete(s, 123456) == s
    ensures Add(Delete(s, 123456), 1, "still works", "neutral").note.id != 0
  {
  }

  /** A cleared table lists as empty; two notes added afterwards list in
      the order they were added. */
  lemma ListEmptyThenFilled(s: ValidStore)
    requires s.rows == map[]
    ensures List(s) == []
    ensures var a := Add(s, 1, "a", "joy");
            var b := Add(a.store, 2, "b", "sad");
            var listed := List(b.store);
            |listed| == 2 && listed[0].id == a.note.id && listed[1].id == b.note.id
  {
    var a := Add(s, 1, "a", "joy");
    var b := Add(a.store, 2, "b", "sad");
    assert List(s, None, 0) == [] by {
      assert |List(s, None, 0)| == 0;
    }
    AddAppendsToList(s, 1, "a", "joy", None, DefaultSource, None);
    AddAppendsToList(a.store, 2, "b", "sad", None, DefaultSource, None);
    ListIsWindowOfAll(b.store, Some(DefaultLimit), 0);
  }
}
