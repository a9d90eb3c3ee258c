/** The document model and the evaluation context are external to the
    expression core: it passes them around and never looks inside. */
module Json {
  /** A node of the JSON-like document tree. */
  type JsonNode

  /** The execution environment threaded through every evaluation. */
  type EvaluationContext
}
