/** The shared patch of `Element.prototype.attachShadow` (`installAttachShadowPatch` in captures/walk_shadow.ts). */
module AttachPatch {
  import opened Prelude

  type Listener = nat

  /** What `Element.prototype.attachShadow` can be. */
  datatype Method = Native(id: nat) | Missing | Patched

  /** `original` is what the patch calls through to; listeners stand in the order they were added. */
  datatype State = State(proto: Method, original: Option<Method>, marker: bool, listeners: seq<Listener>)

  function Added(ls: seq<Listener>, l: Listener): seq<Listener> { if l in ls then ls else ls + [l] }

  function Removed(ls: seq<Listener>, l: Listener): seq<Listener> {
    if ls == [] then [] else (if ls[0] == l then [] else [ls[0]]) + Removed(ls[1..], l)
  }

  function Installed(s: State, l: Listener): State {
    if s.marker then s.(listeners := Added(s.listeners, l))
    else if s.proto.Missing? then s
    else State(Patched, Some(s.proto), true, Added(s.listeners, l))
  }

  function Uninstalled(s: State, l: Listener): State {
    var left := Removed(s.listeners, l);
    if left == [] && s.original.Some? then State(s.original.value, None, false, left) else s.(listeners := left)
  }

  class Registry {
    var proto: Method
    var original: Option<Method>
    var marker: bool
    var listeners: seq<Listener>

    function S(): State
      reads this
    {
      State(proto, original, marker, listeners)
    }

    constructor (proto: Method)
      ensures S() == State(proto, None, false, [])
    {
      this.proto, original, marker, listeners := proto, None, false, [];
    }

    method Install(l: Listener)
      modifies this
      ensures S() == Installed(old(S()), l)
    {
      if !marker {
        if proto.Missing? {
          return;
        }
        original := Some(proto);
        proto := Patched;
        marker := true;
      }
      if l !in listeners {
        listeners := listeners + [l];
      }
    }

    /** The disposer an installation returned. */
    method Uninstall(l: Listener)
      modifies this
      ensures S() == Uninstalled(old(S()), l)
    {
      listeners := Removed(listeners, l);
      if |listeners| == 0 && original.Some? {
        proto := original.value;
        marker := false;
        original := None;
      }
    }

    /** A call of `attachShadow`: who is told, and which native method did the work. */
    method Attach(isOpen: bool) returns (told: seq<Listener>, native: Method)
      requires proto == Patched ==> original.Some?
      ensures told == if proto == Patched && isOpen then listeners else []
      ensures native == if proto == Patched then original.value else proto
    {
      told := [];
      native := proto;
      if proto == Patched {
        native := original.value;
        if isOpen {
          for i := 0 to |listeners|
            invariant told == listeners[..i]
          {
            told := told + [listeners[i]];
          }
        }
      }
    }
  }

  datatype Step = Install(l: Listener) | Uninstall(l: Listener)

  function Run(proto: Method, steps: seq<Step>): State {
    if steps == [] then State(proto, None, false, [])
    else
      var before, step := Run(proto, steps[..|steps| - 1]), steps[|steps| - 1];
      match step
      case Install(l) => Installed(before, l)
      case Uninstall(l) => Uninstalled(before, l)
  }

  /** The last thing that happened to a listener was its installation. */
  predicate Active(steps: seq<Step>, l: Listener) {
    steps != []
    && var last := steps[|steps| - 1];
       if last.l == l then last.Install? else Active(steps[..|steps| - 1], l)
  }

  lemma {:induction false} RemovedMembers(ls: seq<Listener>, l: Listener)
    ensures forall x :: x in Removed(ls, l) <==> x in ls && x != l
    ensures Distinct(ls) ==> Distinct(Removed(ls, l))
  {
    if ls != [] {
      var rest := ls[1..];
      assert ls == [ls[0]] + rest;
      RemovedMembers(rest, l);
      if Distinct(ls) {
        forall i, j | 0 <= i < j < |rest| ensures rest[i] != rest[j] {
          assert ls[i + 1] != ls[j + 1];
        }
        assert ls[0] !in rest;
      }
    }
  }

  /**
   * After any installations and disposals, repeated ones included: exactly the active listeners are
   * told, each once; while there are any the native method is called through to, and once there are
   * none it is back in its place.
   */
  lemma {:induction false} PatchIsRestored(native: nat, steps: seq<Step>)
    ensures
      var s := Run(Native(native), steps);
      && Distinct(s.listeners)
      && (forall l :: l in s.listeners <==> Active(steps, l))
      && (if s.listeners == [] then s == State(Native(native), None, false, [])
          else s.proto == Patched && s.original == Some(Native(native)) && s.marker)
  {
    if steps != [] {
      var front, step := steps[..|steps| - 1], steps[|steps| - 1];
      PatchIsRestored(native, front);
      RemovedMembers(Run(Native(native), front).listeners, step.l);
    }
  }
}
