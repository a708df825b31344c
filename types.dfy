/** The record types shared by the service, the configuration and the HTTP handlers
    (src/types/slack.ts), plus the usual optional value. */
module Types {

  datatype Option<T> = None | Some(value: T)

  /** Slack presence: left to the platform (`auto`) or forced `away`. */
  datatype Presence = Auto | Away

  /** A status descriptor (`SlackStatus`): profile text and emoji, whether do-not-disturb
      is snoozed while it is shown, and the presence to set. */
  datatype SlackStatus = SlackStatus(statusText: string, statusEmoji: string, dnd: bool, presence: Presence)

  /** One row of the daily schedule (`StatusConfig`): a cron expression, a key into the
      status registry and a duration in minutes. */
  datatype StatusConfig = StatusConfig(time: string, status: string, duration: int)

  /** A coffee preset (`CoffeePreset`): a duration in minutes and the text to show. */
  datatype CoffeePreset = CoffeePreset(duration: int, message: string)

  /** An own-key lookup in a registry: the entry stored under `key`, or `None` when the
      registry holds no entry under that key. */
  function Lookup<V>(registry: map<string, V>, key: string): Option<V>
  {
    if key in registry then Some(registry[key]) else None
  }
}
