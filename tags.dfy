/** Plan-construction tags and the tag set every expression carries.
    The tag set is an identity set: a tag is an object and two tags are the
    same tag only when they are the same object. */
module Tags {

  /** A piece of metadata attached to an expression during plan building. */
  class ExpressionTag {
    constructor () { }
  }

  /** One mutation of a tag set, as issued by a plan-construction pass. */
  datatype TagOp = Add(tag: ExpressionTag) | Remove(tag: ExpressionTag)

  /** The tag set after one operation: adding inserts (a no-op when the tag
      is already present), removing deletes (a no-op when it is absent). */
  function Apply(tags: set<ExpressionTag>, op: TagOp): (r: set<ExpressionTag>)
    ensures op.Add? ==> op.tag in r
    ensures op.Remove? ==> op.tag !in r
    ensures r - {op.tag} == tags - {op.tag}
  {
    match op
    case Add(t) => tags + {t}
    case Remove(t) => tags - {t}
  }

  /** The tag set after a whole sequence of operations, first one first. */
  function Replay(tags: set<ExpressionTag>, ops: seq<TagOp>): (r: set<ExpressionTag>)
    ensures forall t :: t in r ==> t in tags || Add(t) in ops
    ensures forall t :: t in tags && Remove(t) !in ops ==> t in r
    decreases |ops|
  {
    if ops == [] then tags else Replay(Apply(tags, ops[0]), ops[1..])
  }

  /** The verdict of the last operation in `ops` that mentions `t`:
      `Some(true)` for an add, `Some(false)` for a remove, `None` if no
      operation mentions `t`. */
  function LastWord(ops: seq<TagOp>, t: ExpressionTag): Option<bool>
    decreases |ops|
  {
    if ops == [] then None
    else if ops[|ops| - 1].tag == t then Some(ops[|ops| - 1].Add?)
    else LastWord(ops[..|ops| - 1], t)
  }

  datatype Option<T> = None | Some(value: T)

  /** Replaying one more operation is applying it to the replayed set. */
  lemma {:induction false} ReplaySnoc(tags: set<ExpressionTag>, ops: seq<TagOp>, op: TagOp)
    ensures Replay(tags, ops + [op]) == Apply(Replay(tags, ops), op)
    decreases |ops|
  {
    if ops == [] {
      assert ops + [op] == [op];
    } else {
      assert (ops + [op])[1..] == ops[1..] + [op];
      ReplaySnoc(Apply(tags, ops[0]), ops[1..], op);
    }
  }

  /** Membership after any sequence of tag operations is decided by the last
      operation on that tag, or by the initial set when there is none. */
  lemma {:induction false} ReplayMembership(tags: set<ExpressionTag>, ops: seq<TagOp>, t: ExpressionTag)
    ensures t in Replay(tags, ops) <==>
              match LastWord(ops, t)
              case None => t in tags
              case Some(added) => added
    decreases |ops|
  {
    if ops != [] {
      var init, op := ops[..|ops| - 1], ops[|ops| - 1];
      assert ops == init + [op];
      ReplaySnoc(tags, init, op);
      ReplayMembership(tags, init, t);
    }
  }

  /** Adding a tag that is already present leaves the set unchanged. */
  lemma AddIdempotent(tags: set<ExpressionTag>, t: ExpressionTag)
    ensures Apply(Apply(tags, Add(t)), Add(t)) == Apply(tags, Add(t))
    ensures t in tags ==> Apply(tags, Add(t)) == tags
  {
  }

  /** Removing an absent tag leaves the set, and so its size, unchanged. */
  lemma RemoveAbsent(tags: set<ExpressionTag>, t: ExpressionTag)
    requires t !in tags
    ensures Apply(tags, Remove(t)) == tags
    ensures |Apply(tags, Remove(t))| == |tags|
  {
  }

  /** A tag is absent before it is added, present right after the add, and
      absent again after a remove that follows. */
  lemma AddThenRemove(tags: set<ExpressionTag>, t: ExpressionTag)
    requires t !in tags
    ensures t in Replay(tags, [Add(t)])
    ensures t !in Replay(tags, [Add(t), Remove(t)])
    ensures Replay(tags, [Add(t), Remove(t)]) == tags
  {
  }
}
