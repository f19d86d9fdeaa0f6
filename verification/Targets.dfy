/** What a capture records, as the control queries find it and the capture thread uses it. */
module Targets {
  datatype Target = Target(sink: string, monitor: string)
}
