/** The context handed to mock handlers before a substitute is generated: the
    requested type, whether the container already has registrations for it,
    and a create/do-not-create flag on which the last call wins. */
module MockCreating {
  import opened Types

  datatype MockCreatingContext = MockCreatingContext(
    serviceType: TypeDesc,
    hasRegistrations: bool,
    shouldCreate: bool)

  /** A fresh context: creation is on until a handler says otherwise. */
  function NewContext(t: TypeDesc, hasRegistrations: bool): (c: MockCreatingContext)
    ensures c.shouldCreate
    ensures c.serviceType == t && c.hasRegistrations == hasRegistrations
  {
    MockCreatingContext(t, hasRegistrations, true)
  }

  function Create(c: MockCreatingContext): (r: MockCreatingContext)
    ensures r.shouldCreate
    ensures r.serviceType == c.serviceType && r.hasRegistrations == c.hasRegistrations
  {
    c.(shouldCreate := true)
  }

  function DoNotCreate(c: MockCreatingContext): (r: MockCreatingContext)
    ensures !r.shouldCreate
    ensures r.serviceType == c.serviceType && r.hasRegistrations == c.hasRegistrations
  {
    c.(shouldCreate := false)
  }

  /** One call a handler may make on the context. */
  datatype Mark = CreateCall | DoNotCreateCall

  function Apply(c: MockCreatingContext, m: Mark): MockCreatingContext {
    match m
    case CreateCall => Create(c)
    case DoNotCreateCall => DoNotCreate(c)
  }

  /** The context after the calls `marks`, made in order. */
  function Replay(c: MockCreatingContext, marks: seq<Mark>): MockCreatingContext
    decreases |marks|
  {
    if marks == [] then c else Replay(Apply(c, marks[0]), marks[1..])
  }

  /** The last call wins, and no call touches the type or the registration
      flag. */
  lemma {:induction false} LastCallWins(c: MockCreatingContext, marks: seq<Mark>)
    ensures Replay(c, marks).serviceType == c.serviceType
    ensures Replay(c, marks).hasRegistrations == c.hasRegistrations
    ensures Replay(c, marks).shouldCreate
              == if marks == [] then c.shouldCreate else marks[|marks| - 1] == CreateCall
    decreases |marks|
  {
    if marks != [] {
      LastCallWins(Apply(c, marks[0]), marks[1..]);
      if |marks| > 1 {
        assert marks[1..][|marks[1..]| - 1] == marks[|marks| - 1];
      }
    }
  }

  /** From a fresh context, the flag is the last call, or on if there was none. */
  lemma FreshContextAfterCalls(t: TypeDesc, hasRegistrations: bool, marks: seq<Mark>)
    ensures Replay(NewContext(t, hasRegistrations), marks).shouldCreate
              == (marks == [] || marks[|marks| - 1] == CreateCall)
    ensures Replay(NewContext(t, hasRegistrations), marks).serviceType == t
    ensures Replay(NewContext(t, hasRegistrations), marks).hasRegistrations == hasRegistrations
  {
    LastCallWins(NewContext(t, hasRegistrations), marks);
  }

  /** Repeating a call changes nothing further. */
  lemma CallsAreIdempotent(c: MockCreatingContext)
    ensures Create(Create(c)) == Create(c)
    ensures DoNotCreate(DoNotCreate(c)) == DoNotCreate(c)
  {
  }
}
