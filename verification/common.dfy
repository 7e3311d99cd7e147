/** Vocabulary shared by the execution-context stack, the model provider and
    the usage statistics: Java's nullable references become `Option`, and the
    opaque identities of the host system (classes, resources, context
    providers, model instances) become plain values. */
module Common {

  /** A Java reference that may be `null`. */
  datatype Option<+T> = None | Some(value: T)

  /** A Java `Class<?>`, identified by its name. */
  type TypeId = string

  /** A repository path, absolute (`/content/site/page`) or relative. */
  type Path = string

  /** An opaque Sling `Resource`. */
  type ResourceId = nat

  /** An opaque `ContextProvider` instance. */
  type ProviderId = nat

  /** An opaque model object produced by the injector. */
  type Instance = nat
}
