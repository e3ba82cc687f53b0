/** The second copy of the argument decoder, kept in the Slack helper
    module. */
module Slack {
  import opened Strings
  import SlackCore

  /** `decode_slack_args(data)` as this module writes it. */
  function DecodeSlackArgs(data: string, unquote: string -> string): (args: map<string, string>)
    ensures args == SlackCore.DecodeArgs(unquote(data))
  {
    var elements := SlackCore.Pieces(Split(unquote(data), '&'));
    SlackCore.ToMap(SlackCore.Pairs(elements))
  }

  /** Both copies decode every input the same way. */
  lemma SameAsCore(data: string, unquote: string -> string)
    ensures DecodeSlackArgs(data, unquote) == SlackCore.DecodeSlackArgs(data, unquote)
  {
  }
}
