/** The handler that declines to generate a substitute for a type the
    container already has registrations for. */
module AlreadyExistsHandler {
  import opened MockCreating

  /** `AlreadyExistsMockHandler.OnMockCreating`. */
  function OnMockCreating(c: MockCreatingContext): (r: MockCreatingContext)
    ensures r.shouldCreate <==> c.shouldCreate && !c.hasRegistrations
    ensures r.serviceType == c.serviceType && r.hasRegistrations == c.hasRegistrations
  {
    if c.hasRegistrations then DoNotCreate(c) else c
  }

  /** Running the handler twice is running it once. */
  lemma OnMockCreatingIdempotent(c: MockCreatingContext)
    ensures OnMockCreating(OnMockCreating(c)) == OnMockCreating(c)
  {
  }
}
