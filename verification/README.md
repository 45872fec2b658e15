# Emotion journal: note repository and voice recorder, in Dafny

This project models the two sequential cores of an emotion-tagged diary
application and proves properties about them.

* **The note repository** (`NoteRepository` in db/crud.py, over the `notes`
  table of db/models.py). The table is a `map<int, Note>` plus the next id
  the autoincrement key will hand out (`Crud.Store`). A well-formed table is
  the subset type `Crud.ValidStore`: every row is filed under its own
  positive id, and every id is below the next one. The database's `now()` is
  a natural-number clock that the caller passes in. Each repository method
  is a pure transition:
  * `add` becomes `Crud.Add`, with `add`'s keyword defaults;
  * `get` becomes `Crud.Get`;
  * `list` becomes `Crud.List`, with `limit` an `Option<nat>` (`None` means
    no limit, as `list(limit=None)` uses it) defaulting to 20, and `offset`
    defaulting to 0;
  * `update` becomes `Crud.Update`, with `**fields` given as a `Crud.Patch`
    record of optional fields;
  * `delete` becomes `Crud.Delete`;
  * `_to_dto` becomes `Crud.ToDto`, with timestamp rendering an abstract
    `iso` function.
* **The recording buffer** of `VoiceToTextConverter` (scripts/voice_nika.py).
  Its state is a stop flag, whether a stream is held, and a FIFO queue of
  captured chunks (`Voice.Recorder`). The operations are `start_recording`,
  the capture `callback` (treated as one more sequential event),
  `stop_recording`, `get_audio_data` and `audio_to_text`. The 32767 scaling,
  the int16 conversion and the speech service are function parameters.

Files: `wrappers.dfy` (Option, Result), `models.dfy` (the `Note` record and
its declared widths), `crud.dfy` (the repository), `crud_properties.dfy`
(lemmas relating repository operations), `scenarios.dfy` (the repository's
test suite as lemmas), `voice.dfy` (the recorder) and `voice_properties.dfy`
(lemmas over whole recording sessions).

Facts about the code that the model keeps:
* `list` orders by id ascending (db/crud.py:104), and the tests check id
  order (tests/test_crud.py:120-123).
* `add` does no validation (db/crud.py:68-76): empty `text` and `emotion`
  are stored as given, and only NULL is refused by the schema
  (db/models.py:41-63).
* `start_recording` while recording clears the stop flag and the queue and
  replaces `self.stream` with a new stream (scripts/voice_nika.py:59-67).
* `created_at` can exceed `updated_at` after an update that sets
  `created_at` (db/crud.py:122; `CrudProperties.CreatedAtPatchOutrunsUpdatedAt`),
  which randomize_hours.py:15-20 does with a random hour of the same day.
* Two updates within one clock tick give equal `updated_at` stamps, since
  the column takes the database's `now()` (db/models.py:36-38). The model
  proves only that an update never moves it backwards when the clock does
  not go back (`CrudProperties.UpdateRefreshesUpdatedAt`).

## Model

| member | source | states |
|---|---|---|
| Crud.Add | db/crud.py:68-76 | inserts exactly one row, under an id no existing row holds (and at least 1); the row keeps text, emotion, score, source and audio_path as given, with defaults score=None, source="voice", audio_path=None; both timestamps are the current clock; no other row changes |
| Crud.Get | db/crud.py:85-90 | `None` exactly when no row has that id; otherwise the stored row, whose id is the one asked for |
| Crud.IdsBetween | db/crud.py:104 | the scan of the key range yields exactly the stored ids in the range, strictly ascending |
| Crud.AscendingIds | db/crud.py:104 | `ORDER BY id ASC` over the whole table: strictly ascending, same set as the table's keys, one entry per row |
| Crud.Page | db/crud.py:104 | `OFFSET`/`LIMIT`: element i of the page is element offset+i of the input, and the page length is what remains after the offset, capped by the limit |
| Crud.List | db/crud.py:101-109 | every listed row is the stored row for its id, ids strictly ascend, the length is min(limit, rows - offset), and the row at position i has exactly offset+i stored ids below it |
| Crud.Apply | db/crud.py:122 | supplied fields take the supplied value, unsupplied fields keep theirs, the id never changes and `updated_at` becomes the current clock |
| Crud.Update | db/crud.py:120-124 | a missing id leaves the table unchanged and returns `None`; an existing id has only its row patched; the id counter is untouched; the result is what `get` then reads |
| Crud.Delete | db/crud.py:127-129 | removes that id and only that id; every remaining row is unchanged; an absent id leaves the table exactly as it was |
| Crud.ToDto | db/crud.py:44-55 | copies id, text, audio_path, emotion, score and source unchanged and renders both timestamps with `iso` |
| CrudProperties.AddThenGet | db/crud.py:71-76 | the row `add` returns is what `get` of its id finds; every other id reads as before |
| CrudProperties.AddTwiceDistinctIds | db/models.py:26-28 | two successive inserts get distinct, increasing ids and both rows are present |
| CrudProperties.AddWithinDeclaredWidths | db/models.py:46-63 | `add` neither checks nor truncates the String(512/32/16) widths: the row fits them exactly when the arguments do |
| CrudProperties.ListOfEmpty | tests/test_crud.py:118 | an empty table lists as `[]` for every limit and offset |
| CrudProperties.ListCovers | db/crud.py:104 | completeness of `list`: every stored row whose rank falls in the returned window appears at position rank - offset |
| CrudProperties.ListIsWindowOfAll | db/crud.py:104 | every page is the matching window of the full id-ascending listing |
| CrudProperties.ListLimitBeyondSize | randomize_hours.py:11 | a limit that reaches past the end returns the same rows as no limit at all |
| CrudProperties.AddAppendsId | db/models.py:26-28 | after `add`, the ascending key list is the old one followed by the new id |
| CrudProperties.AddAppendsToList | tests/test_crud.py:120-123 | a new row lands at the end of the full ascending listing, after every existing row |
| CrudProperties.ApplyComposes | db/crud.py:122 | two successive updates equal one update with the fields merged, later values winning, at the later clock |
| CrudProperties.ApplyIdempotent | db/crud.py:122 | repeating the same update at the same clock changes nothing further |
| CrudProperties.ApplyNothing | db/models.py:36-38 | an update with no fields only refreshes `updated_at` |
| CrudProperties.UpdateOnlyTouchesItsRow | db/crud.py:122 | `update` leaves every other id reading as before |
| CrudProperties.UpdateTextOnly | tests/test_crud.py:96-101 | updating only `text` returns the old row with new text and refreshed `updated_at` |
| CrudProperties.DeleteThenGet | tests/test_crud.py:62-65 | after `delete`, `get` of that id is `None` and other ids read as before |
| CrudProperties.DeleteIdempotent | db/crud.py:127-129 | deleting an id twice equals deleting it once |
| CrudProperties.AddAfterDelete | tests/test_crud.py:105-108 | `add` after a `delete` hands out an id no remaining row holds, and the new row is readable; in the model, whose id counter never goes back, the new id is also never the deleted one |
| CrudProperties.AddKeepsChronology | db/models.py:31-38 | with a clock that does not go back, `add` keeps created_at <= updated_at <= now for every row |
| CrudProperties.UpdateKeepsChronology | db/models.py:36-38 | `update` keeps that ordering unless the patch moves `created_at` past the clock |
| CrudProperties.CreatedAtPatchOutrunsUpdatedAt | randomize_hours.py:17-20 | a `created_at` patch into the future leaves a row created after its last update |
| CrudProperties.UpdateRefreshesUpdatedAt | db/models.py:36-38 | every update on an existing id stamps `updated_at` with the current clock, never earlier than before |
| CrudProperties.DtoRoundTrip | randomize_hours.py:11-15 | when the parser inverts `iso`, reading a serialised row back gives the original row |
| CrudScenarios.ThreeAddsAppend | tests/test_crud.py:40-42 | three successive inserts append their rows to the listing in insertion order |
| CrudScenarios.ThreeNotesListed | tests/test_crud.py:40-43 | three notes added to an empty table list in insertion order |
| CrudScenarios.ListAndPagination | tests/test_crud.py:39-46 | three notes listed: the default page has 3 rows, `limit=1, offset=1` gives just "note 1" |
| CrudScenarios.UpdateNote | tests/test_crud.py:50-58 | updating text, emotion and score returns the new values, keeps source "voice" and advances `updated_at` |
| CrudScenarios.DeleteNote | tests/test_crud.py:62-65 | a deleted note reads as `None` |
| CrudScenarios.UnissuedId | tests/test_crud.py:69-75 | an id never handed out reads as `None`, and updating it changes nothing and returns `None` |
| CrudScenarios.MissingIdsOnFreshTable | tests/test_crud.py:126-128 | `get(9999)`, `get(987654321)` and `update(12345, text="ghost")` on a fresh table give `None` |
| CrudScenarios.AddWithAllFields | tests/test_crud.py:80-92 | every argument of `add` is kept and both timestamps are set |
| CrudScenarios.UpdatePartialFields | tests/test_crud.py:96-101 | updating only text keeps emotion "joy", score `None` and source "voice" |
| CrudScenarios.DeleteNonexistentIsSilent | tests/test_crud.py:105-108 | deleting an absent id changes nothing, and a following `add` yields a non-zero id |
| CrudScenarios.ListEmptyThenFilled | tests/test_crud.py:112-123 | an emptied table lists as `[]`; two later inserts list as `[a.id, b.id]` |
| Voice.StartRecording | scripts/voice_nika.py:59-67 | clears the stop flag, discards every queued chunk and holds an open stream |
| Voice.Callback | scripts/voice_nika.py:48-50 | with the stop flag set the frame is dropped, the recorder is unchanged and the stream is aborted; otherwise the frame joins the tail of the queue and nothing else changes |
| Voice.StopRecording | scripts/voice_nika.py:76-79 | sets the stop flag and leaves no stream, whether or not one existed; the queue is untouched |
| Voice.Concat | scripts/voice_nika.py:95 | the concatenation holds as many samples as all chunks together |
| Voice.ScaleAll | scripts/voice_nika.py:95 | same length, each sample passed through the scaling map |
| Voice.Drain | scripts/voice_nika.py:87-95 | the queue ends empty with flags untouched; the buffer is `None` exactly when nothing was queued, and otherwise holds every queued sample, scaled, in arrival order |
| Voice.GetAudioData | scripts/voice_nika.py:87-95 | the loop that takes chunks off until the queue is empty gives the same recorder and buffer as `Drain` |
| Voice.AudioToText | scripts/voice_nika.py:105-119 | no buffer gives no text; otherwise recognised speech is returned and both "not recognised" and service errors surface as one `RuntimeError` kind, with the source's messages |
| Voice.ConcatAppend | scripts/voice_nika.py:95 | concatenating two chunk lists back to back equals concatenating each and joining |
| Voice.ConcatPlacesSample | scripts/voice_nika.py:95 | sample j of chunk k sits right after the samples of the k earlier chunks |
| Voice.ScaledPlacesEverySample | scripts/voice_nika.py:95 | concatenating then scaling lays every sample out in arrival order |
| VoiceProperties.RunAppend | scripts/voice_nika.py:52-79 | running two event sequences back to back equals running their concatenation |
| VoiceProperties.FramesWhileRecording | scripts/voice_nika.py:48-50 | while stop is not requested, frames join the queue in arrival order and the flags stay the same |
| VoiceProperties.NothingAfterStop | scripts/voice_nika.py:48-49 | once stop is requested, no frame reaches the queue |
| VoiceProperties.RecordingSession | scripts/voice_nika.py:52-95 | start, frames, stop and late frames leave exactly the captured frames queued; the drain returns them concatenated and scaled, or `None` if there were none, and empties the queue |
| VoiceProperties.SessionTranscript | scripts/voice_nika.py:97-119 | after a whole recording session, `audio_to_text` of the drained buffer is `None` exactly when no frame was captured; otherwise the service is asked about every captured sample, scaled then converted, in arrival order, and only a recognised answer yields text |
| VoiceProperties.StartThenDrain | scripts/voice_nika.py:59-60 | a drain right after a start finds nothing |
| VoiceProperties.DrainTwice | scripts/voice_nika.py:87-95 | a second drain finds nothing |
| VoiceProperties.StopIdempotent | scripts/voice_nika.py:76-79 | stopping twice equals stopping once |
| VoiceProperties.NoAudioNoService | scripts/voice_nika.py:105-106 | restates the first clause of `Voice.AudioToText` for two recognisers side by side: without a buffer the result is `None` whatever the service would answer |

## Left out

- Crud.ToDto: the source renders a timestamp that is not a `datetime` as `None`. In the model every stored timestamp is a clock value, so that branch cannot occur and the serialised timestamps are plain strings, as `NoteDTO` declares them.
- Crud.List: negative `limit` or `offset` are not modelled. Both are natural numbers here; SQLite would read a negative limit as "no limit" and a negative offset as 0.
- Crud.Update: only the six fields callers use are patchable (text, emotion, score, source, audio_path, created_at). Passing `id` or `updated_at` through `**fields`, or NULL for a NOT NULL column (an integrity error), is not modelled.
- Crud.Add: ids come from a counter that never reuses a value, as `autoincrement=True` declares. SQLite without the AUTOINCREMENT keyword hands out max(rowid)+1, so it can reuse the id of a deleted last row. That case is not modelled.
- CrudProperties.AddAfterDelete: its conclusion that the new id differs from the deleted one holds for the model's counter only. The program guarantees only that the new id is held by no remaining row, which the lemma also states.
- Declared column widths are stated (`Models.WithinDeclaredWidths`), but no operation enforces them. SQLite does not enforce them either.
- The `as_dict=True` variants of add, get, list and update pass the plain result through `_to_dto`. Only `ToDto` itself is modelled.
- The async session, commit and refresh, transactions and the ORM identity map (db/session.py, db/base.py, scripts/config.py) are not modelled; each operation is one atomic transition.
- `score` is a float in the source and a real here. The store only copies it.
- Voice.StartRecording: the model records only whether `self.stream` holds a stream. When `start_recording` runs while recording, the stream it replaces is never closed; that stream is not modelled.
- Voice.Callback: the real callback runs on the audio thread concurrently with the caller. Here it is a sequential event, and its `frames`, `time` and `status` arguments are ignored.
- Voice.Drain: the multiplication by 32767 on float32 samples is the abstract `scale` parameter.
- Voice.AudioToText: the int16 conversion is the abstract `toPcm` parameter, and the Google recogniser (sample rate, language, thresholds) is the abstract `recognise` parameter.
- The Streamlit UI and analytics (new_main.py, scripts/main.py), the emotion classifier (scripts/emotion_class.py, load_model.py, scripts/load_model.py), and the standalone scripts voice_nika.py and scripts/voice_nika1.py are not part of this model.
