/** `Reaction` of types.ts: a base `{id, time}` together with an `emoji` or a
    `comment` payload. The two payload types form an untagged union, so the
    record carries both fields as optional and a reaction is told apart by
    which field is defined. */
module Reactions {
  import opened Wrappers

  datatype Reaction = Reaction(id: string, time: real, emoji: Option<string>, comment: Option<string>)

  /** A value of the union type: at least one of the two payloads. */
  predicate WellFormed(r: Reaction)
  {
    r.emoji.Some? || r.comment.Some?
  }

  /** `isEmojiReaction`: the `emoji` field is not undefined. */
  predicate IsEmojiReaction(r: Reaction)
  {
    r.emoji.Some?
  }

  /** `isCommentReaction`: the `comment` field is not undefined. */
  predicate IsCommentReaction(r: Reaction)
  {
    r.comment.Some?
  }

  /** The object literal `{id, emoji, time}`. */
  function EmojiReaction(id: string, time: real, emoji: string): (r: Reaction)
    ensures WellFormed(r) && r.id == id && r.time == time
    ensures IsEmojiReaction(r) && r.emoji.value == emoji
    ensures !IsCommentReaction(r)
  {
    Reaction(id, time, Some(emoji), None)
  }

  /** The object literal `{id, comment, time}`. */
  function CommentReaction(id: string, time: real, comment: string): (r: Reaction)
    ensures WellFormed(r) && r.id == id && r.time == time
    ensures IsCommentReaction(r) && r.comment.value == comment
    ensures !IsEmojiReaction(r)
  {
    Reaction(id, time, None, Some(comment))
  }

  /** Every reaction of the union is recognised by one of the two predicates,
      and a reaction built with a single payload by exactly one. */
  lemma Partition(r: Reaction)
    requires WellFormed(r)
    ensures IsEmojiReaction(r) || IsCommentReaction(r)
    ensures r.comment.None? ==> IsEmojiReaction(r) && !IsCommentReaction(r)
    ensures r.emoji.None? ==> IsCommentReaction(r) && !IsEmojiReaction(r)
  {
  }

  /** The predicates read nothing but the payload: `id` and `time` play no part. */
  lemma PredicatesIgnoreBase(r: Reaction, id: string, time: real)
    ensures IsEmojiReaction(r.(id := id, time := time)) == IsEmojiReaction(r)
    ensures IsCommentReaction(r.(id := id, time := time)) == IsCommentReaction(r)
  {
  }
}
