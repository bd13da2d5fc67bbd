/** The server's configuration of one profile: what the client needs of it and what the server does. */
module Config {
  import opened BinaryFormat
  import opened Bytes
  import opened Wrappers

  datatype Rule =
    | PressKey(key: string, requireVoters: Option<int>, requireSupporters: Option<int>,
        requireSupportRate: Option<real>)
    | Output(id: string, fd: int, requireSupportRate: Option<real>)

  /** The keys with which clients vote, the eight bytes of the limit after which they count as away, and
      the rules for the votes. */
  datatype ProfileConfig = ProfileConfig(
    name: string,
    keys: seq<Text>,
    afk: Option<seq<byte>>,
    voteResults: Option<seq<Rule>>)
}
