/** The OpenGL renderer API: the draw count of `drawIndexed` and the routing of
    driver debug messages by severity. */
module RendererApi {

  const GL_DEBUG_SEVERITY_HIGH: nat := 0x9146
  const GL_DEBUG_SEVERITY_MEDIUM: nat := 0x9147
  const GL_DEBUG_SEVERITY_LOW: nat := 0x9148
  const GL_DEBUG_SEVERITY_NOTIFICATION: nat := 0x826B

  /** `drawIndexed`: a non-zero requested count is drawn as is; zero means the
      index buffer's full count. */
  function DrawCount(indexCount: nat, indexBufferCount: nat): (count: nat)
    ensures indexCount != 0 ==> count == indexCount
    ensures indexCount == 0 ==> count == indexBufferCount
  {
    if indexCount != 0 then indexCount else indexBufferCount
  }

  /** Drawing never covers fewer indices than asked for, and asking for nothing
      still draws the whole index buffer. */
  lemma DrawCountNeverBelowRequest(indexCount: nat, indexBufferCount: nat)
    ensures DrawCount(indexCount, indexBufferCount) >= indexCount
    ensures DrawCount(indexCount, indexBufferCount) == 0 <==> indexCount == 0 && indexBufferCount == 0
    ensures DrawCount(0, indexBufferCount) == indexBufferCount
  {
  }

  /** Where a debug message goes. `AssertFailed` is the fall-through assertion
      after the switch. */
  datatype MessageRoute = Critical | Error | Warn | Trace | AssertFailed

  function RouteMessage(severity: nat): (r: MessageRoute)
    ensures severity == GL_DEBUG_SEVERITY_HIGH <==> r == Critical
    ensures severity == GL_DEBUG_SEVERITY_MEDIUM <==> r == Error
    ensures severity == GL_DEBUG_SEVERITY_LOW <==> r == Warn
    ensures severity == GL_DEBUG_SEVERITY_NOTIFICATION <==> r == Trace
  {
    if severity == GL_DEBUG_SEVERITY_HIGH then Critical
    else if severity == GL_DEBUG_SEVERITY_MEDIUM then Error
    else if severity == GL_DEBUG_SEVERITY_LOW then Warn
    else if severity == GL_DEBUG_SEVERITY_NOTIFICATION then Trace
    else AssertFailed
  }

  /** Exactly the four known severities are logged; every other value reaches
      the assertion. */
  lemma UnknownSeverityAsserts(severity: nat)
    ensures RouteMessage(severity) == AssertFailed <==>
      severity !in {GL_DEBUG_SEVERITY_HIGH, GL_DEBUG_SEVERITY_MEDIUM, GL_DEBUG_SEVERITY_LOW, GL_DEBUG_SEVERITY_NOTIFICATION}
  {
  }
}
