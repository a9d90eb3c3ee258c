/** The base of every expression of the query language: the evaluate/set
    protocol, the tag side-channel, rendering, and the canonical singleton
    expressions VALUE, KEY, AS_KEY and NULL. */
module Expressions {
  import opened Json
  import opened Tags
  import opened Text

  /** The outcome of `evaluate` or `set`: a node, or the exception thrown. */
  datatype EvalResult =
    | Ok(node: JsonNode)
    | UnsupportedOperation
    | EvaluationError

  /** The concrete class of an expression instance. `SameValue` is the class
      of VALUE; `KeyMarker` and `AsKeyMarker` are the anonymous classes of KEY
      and AS_KEY; `NullConstant` is the anonymous constant class of NULL;
      `Other` is any other subclass of EvaluationExpression. */
  datatype Variant = SameValue | KeyMarker | AsKeyMarker | NullConstant | Other {

    /** The variants whose `evaluate`, `set` and rendering are all given here. */
    predicate DefinedHere() {
      SameValue? || KeyMarker? || AsKeyMarker?
    }

    /** The variants that have a canonical, shared instance. */
    predicate IsCanonical() {
      !Other?
    }

    /** `evaluate`: VALUE passes its input through unchanged; the two key
        markers throw an evaluation exception whatever they are given. */
    function Evaluate(node: JsonNode, context: EvaluationContext): (r: EvalResult)
      requires DefinedHere()
      ensures r.Ok? <==> this == SameValue
      ensures r.Ok? ==> r.node == node
      ensures !r.Ok? ==> r == EvaluationError
    {
      match this
      case SameValue => Ok(node)
      case _ => EvaluationError
    }

    /** `set`: VALUE replaces the node by the value; the key markers do not
        override `set`, so they fail as the base class does. */
    function Set(node: JsonNode, value: JsonNode, context: EvaluationContext): (r: EvalResult)
      requires DefinedHere()
      ensures r.Ok? <==> this == SameValue
      ensures r.Ok? ==> r.node == value
      ensures !r.Ok? ==> r == DefaultSet(node, value, context)
    {
      if SameValue? then Ok(value) else DefaultSet(node, value, context)
    }
  }

  /** The `set` of the base class: every expression is read-only unless it
      overrides this, so it fails for every node, value and context. */
  function DefaultSet(node: JsonNode, value: JsonNode, context: EvaluationContext): (r: EvalResult)
    ensures r == UnsupportedOperation
  {
    UnsupportedOperation
  }

  /** The base rendering: the tag set's own text and a space, only when some
      tag is present, then the text of the superclass. */
  function BaseRendering(tags: set<ExpressionTag>, tagsText: string, superText: string): (r: string)
    ensures |r| == |superText| + (if tags == {} then 0 else |tagsText| + 1)
    ensures r[|r| - |superText|..] == superText
    ensures tags != {} ==> r[..|tagsText| + 1] == tagsText + " "
  {
    (if tags == {} then "" else tagsText + " ") + superText
  }

  /** The rendering of an instance of variant `v` carrying `tags`. The three
      singleton classes override the base method without calling it, so
      their text never shows tags; every other variant is taken to reach the
      base method, with `superText` standing for the text it appends after
      the tag prefix. */
  function Rendering(v: Variant, tags: set<ExpressionTag>, tagsText: string, superText: string): (r: string)
    ensures v == SameValue ==> r == "<value>"
    ensures v == KeyMarker ==> r == "<key>"
    ensures v == AsKeyMarker ==> r == "-><key>"
    ensures !v.DefinedHere() ==> r == BaseRendering(tags, tagsText, superText)
  {
    match v
    case SameValue => "<value>"
    case KeyMarker => "<key>"
    case AsKeyMarker => "-><key>"
    case _ => BaseRendering(tags, tagsText, superText)
  }

  /** The three singleton renderings are fixed strings, whatever the tags. */
  lemma SingletonRenderings(tags: set<ExpressionTag>, tagsText: string, superText: string)
    ensures Rendering(SameValue, tags, tagsText, superText) == "<value>"
    ensures Rendering(KeyMarker, tags, tagsText, superText) == "<key>"
    ensures Rendering(AsKeyMarker, tags, tagsText, superText) == "-><key>"
  {
  }

  /** For the singleton classes the tag set does not reach the rendering. */
  lemma SingletonRenderingIgnoresTags(v: Variant, tags1: set<ExpressionTag>, tags2: set<ExpressionTag>,
                                      tagsText1: string, tagsText2: string, superText1: string, superText2: string)
    requires v.DefinedHere()
    ensures Rendering(v, tags1, tagsText1, superText1) == Rendering(v, tags2, tagsText2, superText2)
  {
  }

  /** The base rendering carries a prefix exactly when the tag set is not empty. */
  lemma BasePrefixIffTagged(tags: set<ExpressionTag>, tagsText: string, superText: string)
    ensures tags != {} <==> |BaseRendering(tags, tagsText, superText)| > |superText|
    ensures tags == {} <==> BaseRendering(tags, tagsText, superText) == superText
  {
  }

  /** Evaluation and assignment depend on the variant only, never on tags or
      on which instance is asked: VALUE is the identity and a replacement. */
  lemma ValueEvaluateAndSet(node: JsonNode, value: JsonNode, context: EvaluationContext)
    ensures SameValue.Evaluate(node, context) == Ok(node)
    ensures SameValue.Set(node, value, context) == Ok(value)
  {
  }

  /** The key markers cannot be evaluated and cannot be assigned through. */
  lemma MarkersFail(node: JsonNode, value: JsonNode, context: EvaluationContext)
    ensures KeyMarker.Evaluate(node, context) == EvaluationError
    ensures AsKeyMarker.Evaluate(node, context) == EvaluationError
    ensures KeyMarker.Set(node, value, context) == UnsupportedOperation
    ensures AsKeyMarker.Set(node, value, context) == UnsupportedOperation
  {
  }

  /** An expression instance: its class (fixed at construction) and its
      transient, identity-compared tag set (the only mutable state). */
  class Expression {
    const variant: Variant
    var tags: set<ExpressionTag>

    /** A new instance starts without tags. */
    constructor (variant: Variant)
      ensures this.variant == variant && tags == {}
    {
      this.variant := variant;
      tags := {};
    }

    /** `hasTag`: whether this very tag object is attached. */
    function HasTag(tag: ExpressionTag): (b: bool)
      reads this
      ensures b <==> tag in tags
    {
      tag in tags
    }

    /** `addTag`: attaches `tag`; attaching it again changes nothing. */
    method AddTag(tag: ExpressionTag)
      modifies this`tags
      ensures tags == Apply(old(tags), Add(tag))
      ensures tags == old(tags) + {tag}
      ensures HasTag(tag)
    {
      tags := tags + {tag};
    }

    /** `removeTag`: detaches `tag` and reports whether it was attached. */
    method RemoveTag(tag: ExpressionTag) returns (removed: bool)
      modifies this`tags
      ensures removed == old(HasTag(tag))
      ensures tags == Apply(old(tags), Remove(tag))
      ensures tags == old(tags) - {tag}
      ensures !HasTag(tag)
    {
      removed := tag in tags;
      tags := tags - {tag};
    }

    /** `withTag`: `addTag`, then the same instance for chaining. */
    method WithTag(tag: ExpressionTag) returns (self: Expression)
      modifies this`tags
      ensures self == this
      ensures tags == Apply(old(tags), Add(tag))
      ensures HasTag(tag)
    {
      AddTag(tag);
      self := this;
    }

    /** The base `toString(builder)`: the tag prefix, only when there are
        tags, then the superclass's text. */
    method BaseAppendTo(builder: StringBuilder, tagsText: string, superText: string)
      modifies builder
      ensures builder.text == old(builder.text) + BaseRendering(tags, tagsText, superText)
    {
      if tags != {} {
        builder.Append(tagsText);
        builder.Append(" ");
      }
      builder.Append(superText);
    }

    /** `toString(builder)` as dispatched on the instance's class: the three
        singleton classes append their fixed text and skip the base method. */
    method AppendTo(builder: StringBuilder, tagsText: string, superText: string)
      modifies builder
      ensures builder.text == old(builder.text) + Rendering(variant, tags, tagsText, superText)
    {
      match variant
      case SameValue => builder.Append("<value>");
      case KeyMarker => builder.Append("<key>");
      case AsKeyMarker => builder.Append("-><key>");
      case _ => BaseAppendTo(builder, tagsText, superText);
    }

    /** `toString()`: renders into a fresh builder and returns its text. */
    method ToString(tagsText: string, superText: string) returns (s: string)
      ensures s == Rendering(variant, tags, tagsText, superText)
    {
      var builder := new StringBuilder();
      AppendTo(builder, tagsText, superText);
      s := builder.text;
    }

    /** VALUE's `equals`: reference identity, tags play no part. */
    function Equals(obj: object?): (b: bool)
      requires variant == SameValue
      ensures b <==> obj == this
    {
      this == obj
    }

    /** VALUE's `hashCode`: the identity hash of the instance. */
    function HashCode(identityHash: object -> int): (h: int)
      requires variant == SameValue
      ensures h == identityHash(this)
    {
      identityHash(this)
    }
  }

  /** Two equal VALUE instances have the same hash, for any identity hash. */
  lemma ValueHashConsistent(a: Expression, b: Expression, identityHash: object -> int)
    requires a.variant == SameValue && a.Equals(b)
    ensures b.variant == SameValue && a.HashCode(identityHash) == b.HashCode(identityHash)
  {
  }

  /** Two distinct VALUE-class instances are never equal, even with equal tags. */
  lemma ValueCopiesDiffer(a: Expression, b: Expression)
    requires a.variant == SameValue && b.variant == SameValue
    requires a != b && a.tags == b.tags
    ensures !a.Equals(b) && !b.Equals(a)
  {
  }

  /** The canonical singletons, built once at start-up. */
  class Singletons {
    const value: Expression
    const key: Expression
    const asKey: Expression
    const nullExpression: Expression

    /** Each field holds an instance of its own class. */
    predicate Valid() {
      && value.variant == SameValue
      && key.variant == KeyMarker
      && asKey.variant == AsKeyMarker
      && nullExpression.variant == NullConstant
    }

    constructor ()
      ensures Valid()
      ensures fresh(value) && fresh(key) && fresh(asKey) && fresh(nullExpression)
      ensures value.tags == {} && key.tags == {} && asKey.tags == {} && nullExpression.tags == {}
    {
      value := new Expression(SameValue);
      key := new Expression(KeyMarker);
      asKey := new Expression(AsKeyMarker);
      nullExpression := new Expression(NullConstant);
    }

    /** The shared instance of a canonical variant. */
    function Canonical(v: Variant): (e: Expression)
      requires Valid() && v.IsCanonical()
      ensures e.variant == v
      ensures e == value || e == key || e == asKey || e == nullExpression
    {
      match v
      case SameValue => value
      case KeyMarker => key
      case AsKeyMarker => asKey
      case NullConstant => nullExpression
    }

    /** `readResolve`: a reconstructed singleton of any of the four classes
        is replaced by the shared instance of its class. */
    function ReadResolve(x: Expression): (r: Expression)
      requires Valid() && x.variant.IsCanonical()
      ensures r.variant == x.variant
      ensures r == value || r == key || r == asKey || r == nullExpression
    {
      Canonical(x.variant)
    }
  }

  /** Different canonical variants have different shared instances. */
  lemma CanonicalInjective(s: Singletons, v: Variant, w: Variant)
    requires s.Valid() && v.IsCanonical() && w.IsCanonical()
    ensures s.Canonical(v) == s.Canonical(w) <==> v == w
  {
  }

  /** Reconstructing two copies of one singleton yields the same reference,
      and resolving the shared instance gives it back. */
  lemma ReconstructionIdentical(s: Singletons, x: Expression, y: Expression)
    requires s.Valid() && x.variant.IsCanonical() && x.variant == y.variant
    ensures s.ReadResolve(x) == s.ReadResolve(y)
    ensures s.ReadResolve(s.ReadResolve(x)) == s.ReadResolve(x)
  {
  }

  /** A reconstructed VALUE, once resolved, is equal to VALUE by identity. */
  lemma ResolvedValueIsValue(s: Singletons, x: Expression)
    requires s.Valid() && x.variant == SameValue
    ensures s.value.Equals(s.ReadResolve(x))
  {
  }
}
