/** What the supervisor and the tasks around it share about reload commands. */
module Reloads {
  import opened Listeners

  type Client = nat

  /** A reload whose generation is being started, with the configuration to return to. */
  datatype Pending = Pending(previous: Config, client: Client)
}
