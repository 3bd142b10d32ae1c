/**
 * `UDASActionSelector`: user code that, for a path point or an agent, chooses the action
 * points to run next. Its choice is supplied to the model by the caller; what remains is its
 * identity (its class), its saved payload, and its `ValidateData` hook.
 */
module Selectors {
  class ActionSelector {
    /** The selector's class, which a snapshot stores to recreate it. */
    const kind: nat
    /** The properties marked `SaveGame`, as serialized into a snapshot; opaque here. */
    var data: seq<int>
    /** How many times the `ValidateData` hook has run. */
    ghost var validations: nat

    constructor (kind: nat, data: seq<int>)
      ensures this.kind == kind && this.data == data && validations == 0
    {
      this.kind := kind;
      this.data := data;
      validations := 0;
    }

    /** The `ValidateData` hook, a no-op unless a subclass overrides it. */
    method ValidateData()
      modifies this`validations
      ensures validations == old(validations) + 1
    {
      validations := validations + 1;
    }
  }
}
