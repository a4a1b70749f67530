/** The process-wide registry of backends by name, and the `Open` entry point. */
module Registry {
  import opened Wrappers
  import opened Memory

  const NilStoreMessage: string := "session: Register store is nil"

  function DuplicateMessage(name: string): string {
    "session: Register called twice for store " + name
  }

  /** What a call to Register does: returns normally, or panics with a message. */
  datatype Outcome = Registered | Panicked(message: string)

  /** Register on the registry `stores`: the outcome and the registry afterwards. A nil
      store panics first; a name already present panics next; otherwise exactly
      `name ↦ s` is added. A panic leaves the registry as it was. */
  function RegisterSpec(stores: map<string, MemStore>, name: string, s: MemStore?): (r: (Outcome, map<string, MemStore>))
    ensures r.0 == Registered <==> s != null && name !in stores
    ensures s == null ==> r.0 == Panicked(NilStoreMessage)
    ensures s != null && name in stores ==> r.0 == Panicked(DuplicateMessage(name))
    ensures r.0.Panicked? ==> r.1 == stores
    ensures r.0 == Registered ==> r.1.Keys == stores.Keys + {name} && r.1[name] == s
    ensures r.0 == Registered ==> forall n :: n in stores ==> r.1[n] == stores[n]
  {
    if s == null then (Panicked(NilStoreMessage), stores)
    else if name in stores then (Panicked(DuplicateMessage(name)), stores)
    else (Registered, stores[name := s])
  }

  /** One call to Register, by name and store. */
  datatype Registration = Registration(name: string, store: MemStore?)

  /** The registry and the outcomes after registering `regs` in order. */
  function RegisterAll(stores: map<string, MemStore>, regs: seq<Registration>): (r: (map<string, MemStore>, seq<Outcome>))
    ensures |r.1| == |regs|
    decreases |regs|
  {
    if regs == [] then (stores, [])
    else
      var step := RegisterSpec(stores, regs[0].name, regs[0].store);
      var rest := RegisterAll(step.1, regs[1..]);
      (rest.0, [step.0] + rest.1)
  }

  /** Once a name is registered, every later registration of it panics and the store
      registered first stays in place. */
  lemma {:induction false} RegisteredNameIsKept(stores: map<string, MemStore>, regs: seq<Registration>, name: string)
    requires name in stores
    ensures name in RegisterAll(stores, regs).0
    ensures RegisterAll(stores, regs).0[name] == stores[name]
    ensures forall j :: 0 <= j < |regs| && regs[j].name == name ==> RegisterAll(stores, regs).1[j].Panicked?
    decreases |regs|
  {
    if regs != [] {
      var step := RegisterSpec(stores, regs[0].name, regs[0].store);
      RegisteredNameIsKept(step.1, regs[1..], name);
      var outs := RegisterAll(stores, regs).1;
      forall j | 0 <= j < |regs| && regs[j].name == name
        ensures outs[j].Panicked?
      {
        if j > 0 {
          assert regs[1..][j - 1] == regs[j];
        }
      }
    }
  }

  /** Names stay unique: after a registration of `name` succeeds, every later
      registration of `name` panics, and the registry keeps the first store. */
  lemma {:induction false} NamesStayUnique(stores: map<string, MemStore>, regs: seq<Registration>, i: nat, j: nat)
    requires i < j < |regs| && regs[i].name == regs[j].name
    requires RegisterAll(stores, regs).1[i] == Registered
    ensures RegisterAll(stores, regs).1[j].Panicked?
    ensures regs[i].name in RegisterAll(stores, regs).0
    ensures RegisterAll(stores, regs).0[regs[i].name] == regs[i].store
    decreases |regs|
  {
    var step := RegisterSpec(stores, regs[0].name, regs[0].store);
    if i == 0 {
      RegisteredNameIsKept(step.1, regs[1..], regs[0].name);
      assert regs[1..][j - 1] == regs[j];
    } else {
      NamesStayUnique(step.1, regs[1..], i - 1, j - 1);
    }
  }

  /** The registry of backends (`stores`), updated in place by Register. */
  class Stores {
    var stores: map<string, MemStore>

    constructor ()
      ensures stores == map[]
    {
      stores := map[];
    }

    /** Register: panics on a nil store or a name already taken, leaving the registry
        unchanged; otherwise adds `name ↦ s` and nothing else. */
    method Register(name: string, s: MemStore?) returns (out: Outcome)
      modifies this
      ensures (out, stores) == RegisterSpec(old(stores), name, s)
    {
      if s == null {
        return Panicked(NilStoreMessage);
      }
      if name in stores {
        return Panicked(DuplicateMessage(name));
      }
      stores := stores[name := s];
      out := Registered;
    }
  }

  /** The memory backend's package initialisation registers it under "memory"; a second
      registration under that name panics. */
  method RegisterMemoryTwice() returns (first: Outcome, second: Outcome)
    ensures first == Registered
    ensures second == Panicked(DuplicateMessage("memory"))
  {
    var registry := new Stores();
    var prototype := new MemStore.Open("");
    first := registry.Register("memory", prototype);
    second := registry.Register("memory", prototype);
  }

  /** Open is a stub: no store and no error for every name, registered or not. */
  function Open(name: string, options: string): (r: (MemStore?, Option<string>))
    ensures r.0 == null && r.1 == None
  {
    (null, None)
  }
}
