/**
 * The task record (model/Task.java): an identifier, a text payload, a completion
 * flag and the instant of the last modification. The reference-typed fields of
 * the entity may be `null`, so they are options here.
 */
module Tasks {
  import opened Wrappers

  /** An instant, counted from the epoch in a fixed unit; instants before the epoch are negative. */
  type Instant = int

  /** `Instant.EPOCH`, which the reconciliation uses for a missing timestamp. */
  const Epoch: Instant := 0

  datatype Task = Task(
    id: Option<string>,
    title: Option<string>,
    description: Option<string>,
    completed: bool,
    updatedAt: Option<Instant>)

  /** Java's `Character.isWhitespace`: the Unicode space, line and paragraph separators
      except the three no-break spaces, plus the ASCII controls TAB..CR and FS..US. */
  predicate IsWhitespace(c: char) {
    || '\t' <= c <= '\r'
    || '\U{1C}' <= c <= '\U{1F}'
    || c == ' '
    || c == '\U{1680}'
    || '\U{2000}' <= c <= '\U{2006}'
    || '\U{2008}' <= c <= '\U{200A}'
    || c == '\U{2028}' || c == '\U{2029}'
    || c == '\U{205F}' || c == '\U{3000}'
  }

  /** Java's `String.isBlank`: empty, or whitespace only. */
  predicate IsBlank(s: string) {
    forall i :: 0 <= i < |s| ==> IsWhitespace(s[i])
  }

  /** The test both services use to decide that a task has no usable id: `id == null || id.isBlank()`. */
  predicate NeedsId(id: Option<string>) {
    id.None? || IsBlank(id.value)
  }

  /** A timestamp for comparison, a missing one counting as the epoch. */
  function OrEpoch(t: Option<Instant>): Instant {
    if t.None? then Epoch else t.value
  }
}
