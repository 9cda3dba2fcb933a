/** A detected port-forward, as the scanner reports it. */
module Forward {
  import opened Text

  datatype PortForward = PortForward(
    port: int,
    remoteHost: AsciiText,  // ssh; empty for kubectl
    remotePort: int,     // 0 when the command line could not be parsed
    resource: AsciiText,    // kubectl; empty for ssh
    tool: string
  )
}
