/** The `notes` table of the journal: one record per diary entry
    (db/models.py). */
module Models {
  import opened Wrappers

  /** A tick of the caller-supplied logical clock that stands for the
      database's `now()`. */
  type Timestamp = nat

  /** The classifier confidence column. The store only copies it, so a
      mathematical real stands for the float. */
  type Score = real

  /** Value of `source` when the caller supplies none. */
  const DefaultSource: string := "voice"

  /** Declared column widths. SQLite does not enforce them. */
  const AudioPathWidth: nat := 512
  const EmotionWidth: nat := 32
  const SourceWidth: nat := 16

  /** One row of `notes`. `text`, `emotion` and `source` are NOT NULL;
      `audioPath` and `score` are nullable. */
  datatype Note = Note(
    id: int,
    createdAt: Timestamp,
    updatedAt: Timestamp,
    text: string,
    audioPath: Option<string>,
    emotion: string,
    score: Option<Score>,
    source: string)

  /** The row respects the declared String(n) widths. */
  predicate WithinDeclaredWidths(n: Note) {
    && |n.emotion| <= EmotionWidth
    && |n.source| <= SourceWidth
    && (n.audioPath.Some? ==> |n.audioPath.value| <= AudioPathWidth)
  }
}
