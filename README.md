# Sopremo evaluation expressions

A Dafny model of `EvaluationExpression`, the base class of every expression
of the Sopremo query language. It covers:

- the **tag side-channel**: each expression instance owns a transient set of
  plan-construction tags, compared by object identity, changed by `addTag`,
  `removeTag` and `withTag` and queried by `hasTag`;
- the **evaluate/set protocol**: the base `set` always fails with an
  unsupported-operation exception; the `VALUE` singleton passes its input
  through on `evaluate` and replaces the node on `set`; the `KEY` and
  `AS_KEY` markers throw an evaluation exception when evaluated and inherit
  the failing `set`;
- **rendering**: the base `toString(builder)` writes the tag set and a space
  only when the set is non-empty, then the superclass's text; the three
  singleton classes override it without calling the base method, so they
  always render `<value>`, `<key>` and `-><key>`;
- **canonical singletons**: `VALUE` compares and hashes by identity, and
  `readResolve` maps a reconstructed `VALUE`, `KEY`, `AS_KEY` or `NULL` to
  the one shared instance of its class.

Files: `json.dfy` (the opaque document node and evaluation context),
`text.dfy` (the string builder the rendering appends to), `tags.dfy` (tags,
tag operations and the replay of a sequence of them), `expressions.dfy`
(variants, evaluate/set, rendering, the `Expression` class and the
`Singletons` registry).

Modelling choices:

- The class of an instance is the datatype `Variant`: `SameValue` (VALUE),
  `KeyMarker` (KEY), `AsKeyMarker` (AS_KEY), `NullConstant` (NULL) and
  `Other` (any subclass defined elsewhere). `Expression.variant` is a
  constant; `Expression.tags` is the only mutable field.
- Tags are objects of class `ExpressionTag`, so set membership is reference
  identity, as with the identity set of the source.
- Exceptions become the `EvalResult` variants `UnsupportedOperation` and
  `EvaluationError`.
- The text of the identity set's `toString` and of the superclass's
  `toString(builder)` are not visible; they are the string parameters
  `tagsText` and `superText` of the rendering members.
- `readResolve` is modelled as a lookup `Singletons.Canonical(variant)` in a
  registry built once by the `Singletons` constructor.
- One might expect every expression to render its tags before its own text.
  `VALUE`, `KEY` and `AS_KEY` override `toString(builder)` without calling
  the base method (EvaluationExpression.java:42-44, 94-96, 115-117), so they
  never show their tags.

## Model

| member | source | states |
|---|---|---|
| Tags.Apply | sopremo/sopremo-common/src/main/java/eu/stratosphere/sopremo/expressions/EvaluationExpression.java:138-148 | after adding, the tag is present; after removing, it is absent; no other tag changes |
| Tags.Replay | sopremo/sopremo-common/src/main/java/eu/stratosphere/sopremo/expressions/EvaluationExpression.java:138-148 | after a sequence of tag operations, every present tag was there before or was added, and every tag that was there and never removed is still there |
| Tags.ReplaySnoc | sopremo/sopremo-common/src/main/java/eu/stratosphere/sopremo/expressions/EvaluationExpression.java:138-148 | tag operations act one after another: replaying one more operation applies it to the replayed set |
| Tags.ReplayMembership | sopremo/sopremo-common/src/main/java/eu/stratosphere/sopremo/expressions/EvaluationExpression.java:138-148 | after any sequence of tag operations, a tag is present exactly when the last operation naming it was an add, or, if none names it, when it was present at the start |
| Tags.AddIdempotent | sopremo/sopremo-common/src/main/java/eu/stratosphere/sopremo/expressions/EvaluationExpression.java:138-140 | adding a tag twice is adding it once; adding a present tag leaves the set unchanged |
| Tags.RemoveAbsent | sopremo/sopremo-common/src/main/java/eu/stratosphere/sopremo/expressions/EvaluationExpression.java:146-148 | removing a tag that is not there changes neither the set nor its size |
| Tags.AddThenRemove | sopremo/sopremo-common/src/main/java/eu/stratosphere/sopremo/expressions/EvaluationExpression.java:138-148 | an absent tag is present after an add and absent again, with the set restored, after a following remove |
| Expressions.Variant.Evaluate | sopremo/sopremo-common/src/main/java/eu/stratosphere/sopremo/expressions/EvaluationExpression.java:22-108 | evaluation succeeds exactly for VALUE and then yields the input node unchanged; KEY and AS_KEY yield an evaluation error |
| Expressions.Variant.Set | sopremo/sopremo-common/src/main/java/eu/stratosphere/sopremo/expressions/EvaluationExpression.java:36-39 | set succeeds exactly for VALUE and then yields the supplied value, whatever the node; KEY and AS_KEY fall back to the failing base set |
| Expressions.DefaultSet | sopremo/sopremo-common/src/main/java/eu/stratosphere/sopremo/expressions/EvaluationExpression.java:73-76 | the base set fails with an unsupported-operation error for every node, value and context |
| Expressions.ValueEvaluateAndSet | sopremo/sopremo-common/src/main/java/eu/stratosphere/sopremo/expressions/EvaluationExpression.java:22-39 | VALUE evaluates to its input and sets to the value, discarding the node |
| Expressions.MarkersFail | sopremo/sopremo-common/src/main/java/eu/stratosphere/sopremo/expressions/EvaluationExpression.java:78-118 | KEY and AS_KEY fail on evaluate with an evaluation error and on set with an unsupported-operation error |
| Expressions.BaseRendering | sopremo/sopremo-common/src/main/java/eu/stratosphere/sopremo/expressions/EvaluationExpression.java:157-162 | the base text is the superclass text, preceded by the tag-set text and one space exactly when the tag set is non-empty |
| Expressions.BasePrefixIffTagged | sopremo/sopremo-common/src/main/java/eu/stratosphere/sopremo/expressions/EvaluationExpression.java:157-162 | the base text is longer than the superclass text if and only if some tag is present, and equal to it if and only if none is |
| Expressions.Rendering | sopremo/sopremo-common/src/main/java/eu/stratosphere/sopremo/expressions/EvaluationExpression.java:41-162 | the dispatch of `toString(builder)`: VALUE, KEY and AS_KEY give their fixed texts, every other class the base text with its tag prefix |
| Expressions.SingletonRenderings | sopremo/sopremo-common/src/main/java/eu/stratosphere/sopremo/expressions/EvaluationExpression.java:41-117 | VALUE, KEY and AS_KEY render exactly `<value>`, `<key>` and `-><key>` whatever tags they carry |
| Expressions.SingletonRenderingIgnoresTags | sopremo/sopremo-common/src/main/java/eu/stratosphere/sopremo/expressions/EvaluationExpression.java:41-117 | for the three singleton classes the rendering is the same for any two tag sets |
| Expressions.Expression.constructor | sopremo/sopremo-common/src/main/java/eu/stratosphere/sopremo/expressions/EvaluationExpression.java:60 | a new instance has its class and an empty tag set |
| Expressions.Expression.HasTag | sopremo/sopremo-common/src/main/java/eu/stratosphere/sopremo/expressions/EvaluationExpression.java:142-144 | true exactly when this tag object is attached |
| Expressions.Expression.AddTag | sopremo/sopremo-common/src/main/java/eu/stratosphere/sopremo/expressions/EvaluationExpression.java:138-140 | the new tag set is the old one with the tag inserted, and the tag is then present |
| Expressions.Expression.RemoveTag | sopremo/sopremo-common/src/main/java/eu/stratosphere/sopremo/expressions/EvaluationExpression.java:146-148 | returns whether the tag was present before; the new set is the old one without the tag; no other tag changes |
| Expressions.Expression.WithTag | sopremo/sopremo-common/src/main/java/eu/stratosphere/sopremo/expressions/EvaluationExpression.java:164-167 | has the effect of addTag on the tag set and returns the same instance |
| Expressions.Expression.BaseAppendTo | sopremo/sopremo-common/src/main/java/eu/stratosphere/sopremo/expressions/EvaluationExpression.java:157-162 | appends the base text to the builder and nothing else |
| Expressions.Expression.AppendTo | sopremo/sopremo-common/src/main/java/eu/stratosphere/sopremo/expressions/EvaluationExpression.java:41-162 | appends the rendering of the instance's class: the fixed text for the three singletons, the base text otherwise |
| Expressions.Expression.ToString | sopremo/sopremo-common/src/main/java/eu/stratosphere/sopremo/expressions/EvaluationExpression.java:150-155 | returns exactly the rendering of the instance's class and current tags |
| Expressions.Expression.Equals | sopremo/sopremo-common/src/main/java/eu/stratosphere/sopremo/expressions/EvaluationExpression.java:31-34 | VALUE is equal to an object exactly when it is that same object |
| Expressions.Expression.HashCode | sopremo/sopremo-common/src/main/java/eu/stratosphere/sopremo/expressions/EvaluationExpression.java:46-49 | VALUE's hash is the identity hash of the instance |
| Expressions.ValueHashConsistent | sopremo/sopremo-common/src/main/java/eu/stratosphere/sopremo/expressions/EvaluationExpression.java:31-49 | equal VALUE instances have equal hashes, for any identity hash |
| Expressions.ValueCopiesDiffer | sopremo/sopremo-common/src/main/java/eu/stratosphere/sopremo/expressions/EvaluationExpression.java:31-34 | two distinct VALUE-class instances are unequal even when their tags agree |
| Expressions.Singletons.constructor | sopremo/sopremo-common/src/main/java/eu/stratosphere/sopremo/expressions/EvaluationExpression.java:78-136 | builds one fresh, untagged instance of each of the four singleton classes |
| Expressions.Singletons.Canonical | sopremo/sopremo-common/src/main/java/eu/stratosphere/sopremo/expressions/EvaluationExpression.java:78-136 | the shared instance of a canonical class is of that class and is one of the four registered instances |
| Expressions.Singletons.ReadResolve | sopremo/sopremo-common/src/main/java/eu/stratosphere/sopremo/expressions/EvaluationExpression.java:27-135 | a reconstructed VALUE, KEY, AS_KEY or NULL becomes the shared instance of its class |
| Expressions.CanonicalInjective | sopremo/sopremo-common/src/main/java/eu/stratosphere/sopremo/expressions/EvaluationExpression.java:78-136 | two canonical classes share an instance if and only if they are the same class |
| Expressions.ReconstructionIdentical | sopremo/sopremo-common/src/main/java/eu/stratosphere/sopremo/expressions/EvaluationExpression.java:27-135 | reconstructing two copies of one singleton gives identical references, and resolving the shared instance returns it |
| Expressions.ResolvedValueIsValue | sopremo/sopremo-common/src/main/java/eu/stratosphere/sopremo/expressions/EvaluationExpression.java:27-34 | a reconstructed VALUE, once resolved, is equal to VALUE by identity |

## Left out

- Java serialization itself (serial version ids, when `readResolve` runs, how transient fields are re-initialised): only the canonical lookup is modelled.
- `NULL`'s evaluation and `set`: they come from `ConstantExpression`, which is not part of this model, so `Variant.Evaluate` and `Variant.Set` are defined only for VALUE, KEY and AS_KEY. `NULL`'s rendering is covered by the `Expressions.Rendering` line below.
- Expressions.Variant.Evaluate: `evaluate` is abstract in the base class; for `NullConstant` and `Other` the overriding code is not part of this model, hence the `DefinedHere` precondition.
- Expressions.Rendering: `NULL` and every other class besides the three singletons are assumed to reach the base `toString(builder)` first, so their text carries the tag prefix; whatever `ConstantExpression` or another subclass appends is folded into `superText`. A subclass that overrides `toString(builder)` without calling the base method, or appends before calling it, is not captured.
- The superclass `SopremoExpression.toString(builder)` and the identity set's `toString`: not part of this model; their text is a parameter.
- The message built by `String.format` for the unsupported-operation exception: only the error variant is modelled.
- `System.identityHashCode`: a parameter `identityHash` of `HashCode`.
- The internals of `JsonNode` and `EvaluationContext`: opaque types.
- Null references: tags are non-null `ExpressionTag` objects, so `addTag(null)`, `hasTag(null)` and `removeTag(null)` are not modelled; a null `JsonNode` is not distinguished from other nodes (the opaque type may hold it, and VALUE passes it through like any node). `Expression.Equals` takes a nullable object and is false for null.
- Concurrency: there is none in this class; the tag set is changed by one thread.
