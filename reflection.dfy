/**
 * What PHP reflection tells the registration engine about a component:
 * its methods (name, declared parameter count, doc comment) and its class
 * doc comment. Reflection itself is not modelled; its answers are data.
 */
module Reflection {
  import opened Strings

  /** `ReflectionMethod`: a missing doc comment is the empty string. */
  datatype MethodInfo = MethodInfo(name: string, paramCount: nat, doc: string)

  /** A call `Other::instance(...args)` that a component's `init` makes. */
  datatype InstanceCall = InstanceCall(cls: string, args: seq<string>)

  /**
   * A component class. `initCalls` is all of `init` that the registry can
   * observe: the `instance()` calls it makes, in order.
   */
  datatype ClassInfo = ClassInfo(
    name: string,
    methods: seq<MethodInfo>,
    doc: string,
    initCalls: seq<InstanceCall>)

  /** `method_exists`: PHP method names compare case-insensitively (ASCII). */
  function HasMethod(c: ClassInfo, name: string): (b: bool)
    ensures (exists j :: 0 <= j < |c.methods| && c.methods[j].name == name) ==> b
    ensures (forall j :: 0 <= j < |c.methods| ==> Lower(c.methods[j].name) != Lower(name)) ==> !b
  {
    exists j :: 0 <= j < |c.methods| && Lower(c.methods[j].name) == Lower(name)
  }

  /** Two spellings of a name that differ only in the case of ASCII letters find the same methods. */
  lemma HasMethodIgnoresCase(c: ClassInfo, a: string, b: string)
    requires Lower(a) == Lower(b)
    ensures HasMethod(c, a) == HasMethod(c, b)
  {
  }
}
