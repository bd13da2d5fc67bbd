/** What a client shows after any list of the server's frames, read off the list: the last user and the last
    multiplier that were named, the first answers, and one event for each change. */
module Sessions {
  import opened Bytes
  import opened Commands
  import opened Handshake
  import opened Notices
  import opened Wrappers

  /** The user named last: by a change of user, or nobody after a deletion. */
  function LastUser(notices: seq<Notice>, initial: Option<seq<byte>>): Option<seq<byte>> {
    if notices == [] then initial
    else
      match notices[|notices| - 1]
      case Exchange(user, _) => user
      case Deletion => None
      case _ => LastUser(notices[..|notices| - 1], initial)
  }

  /** The multiplier carried last. */
  function LastMultiplier(notices: seq<Notice>, initial: int): int {
    if notices == [] then initial
    else
      match notices[|notices| - 1]
      case Multiplier(multiplier) => multiplier
      case Exchange(_, multiplier) => multiplier
      case _ => LastMultiplier(notices[..|notices| - 1], initial)
  }

  /** The table sent last. */
  function LastTable(notices: seq<Notice>, initial: Table): Table {
    if notices == [] then initial
    else
      match notices[|notices| - 1]
      case Types(templates) => TableOf(templates)
      case _ => LastTable(notices[..|notices| - 1], initial)
  }

  /** The first challenge, unless there is an earlier one. */
  function FirstChallenge(notices: seq<Notice>, earlier: Option<seq<byte>>): Option<seq<byte>> {
    if earlier != None then earlier
    else if notices == [] then None
    else if notices[0].Challenge? then Some(notices[0].token)
    else FirstChallenge(notices[1..], None)
  }

  function FirstVerdict(notices: seq<Notice>, earlier: Option<(bool, seq<byte>)>): Option<(bool, seq<byte>)> {
    if earlier != None then earlier
    else if notices == [] then None
    else if notices[0].Verdict? then Some((notices[0].success, notices[0].reason))
    else FirstVerdict(notices[1..], None)
  }

  /** Each event announces what the frame carries: a multiplier with the one before it, and with a user
      only if it differs. */
  function Announced(notices: seq<Notice>, initial: int): seq<Event> {
    if notices == [] then []
    else
      var init := notices[..|notices| - 1];
      var before := LastMultiplier(init, initial);
      Announced(init, initial)
      + match notices[|notices| - 1]
        case Multiplier(multiplier) => [MultiplierChanged(before, multiplier)]
        case Exchange(user, multiplier) =>
          if multiplier == before then [UserChanged(user)]
          else [UserChanged(user), MultiplierChanged(before, multiplier)]
        case Deletion => [UserChanged(None)]
        case _ => []
  }

  predicate HasTypes(notices: seq<Notice>) {
    notices != [] && (notices[|notices| - 1].Types? || HasTypes(notices[..|notices| - 1]))
  }

  ghost predicate Open(notices: seq<Notice>) {
    forall i :: 0 <= i < |notices| ==> notices[i] != EndSession
  }

  /** Up to the end of the session a client shows exactly what it has been told. */
  lemma {:induction false} ShowsWhatItIsTold(c: Client, notices: seq<Notice>)
    requires !c.disposed && Open(notices)
    ensures var d := AfterNotices(c, notices);
            && d.user == LastUser(notices, c.user)
            && d.multiplier == LastMultiplier(notices, c.multiplier)
            && d.table == LastTable(notices, c.table)
            && d.events == c.events + Announced(notices, c.multiplier)
            && !d.disposed
  {
    if notices != [] {
      ShowsWhatItIsTold(c, notices[..|notices| - 1]);
      assert notices == notices[..|notices| - 1] + [notices[|notices| - 1]];
      Taken(c, notices[..|notices| - 1], notices[|notices| - 1]);
    }
  }

  /** Of several challenges or verdicts the first one stands. */
  lemma {:induction false} FirstAnswersStand(c: Client, notices: seq<Notice>)
    requires !c.disposed && Open(notices)
    ensures AfterNotices(c, notices).challenge == FirstChallenge(notices, c.challenge)
    ensures AfterNotices(c, notices).result == FirstVerdict(notices, c.result)
    ensures AfterNotices(c, notices).handshake
            == if c.handshake == None && HasTypes(notices) then Some(Completed) else c.handshake
    ensures !AfterNotices(c, notices).disposed
  {
    if notices != [] {
      var init, n := notices[..|notices| - 1], notices[|notices| - 1];
      FirstAnswersStand(c, init);
      assert notices == init + [n];
      Taken(c, init, n);
      FirstOfMore(init, n, c.challenge, c.result);
      Answers(AfterNotices(c, init), n);
    }
  }

  /** What one frame answers. */
  lemma Answers(c: Client, n: Notice)
    requires !c.disposed && n != EndSession
    ensures var d := AfterNotice(c, n);
            && !d.disposed
            && d.challenge == (if c.challenge == None && n.Challenge? then Some(n.token) else c.challenge)
            && d.result == (if c.result == None && n.Verdict? then Some((n.success, n.reason)) else c.result)
            && d.handshake == if c.handshake == None && n.Types? then Some(Completed) else c.handshake
  {
  }

  lemma {:induction false} FirstOfMore(
      notices: seq<Notice>, n: Notice, challenge: Option<seq<byte>>, result: Option<(bool, seq<byte>)>)
    ensures FirstChallenge(notices + [n], challenge)
            == if FirstChallenge(notices, challenge) == None && n.Challenge? then Some(n.token)
               else FirstChallenge(notices, challenge)
    ensures FirstVerdict(notices + [n], result)
            == if FirstVerdict(notices, result) == None && n.Verdict? then Some((n.success, n.reason))
               else FirstVerdict(notices, result)
  {
    if notices == [] {
      assert (notices + [n])[1..] == [];
    } else {
      assert (notices + [n])[1..] == notices[1..] + [n];
      FirstOfMore(notices[1..], n, None, None);
    }
  }

  /** The end of a session empties the table and is announced once, and nothing that comes later changes
      anything. */
  lemma {:induction false} EndIsFinal(c: Client, notices: seq<Notice>, later: seq<Notice>)
    requires !c.disposed && Open(notices)
    ensures var d := AfterNotices(c, notices + [EndSession] + later);
            && d.disposed && d.table == map[]
            && d.events == c.events + Announced(notices, c.multiplier) + [SessionEnded]
            && d.user == LastUser(notices, c.user) && d.multiplier == LastMultiplier(notices, c.multiplier)
  {
    if later == [] {
      ShowsWhatItIsTold(c, notices);
      Taken(c, notices, EndSession);
      assert notices + [EndSession] + later == notices + [EndSession];
    } else {
      var init, n := later[..|later| - 1], later[|later| - 1];
      EndIsFinal(c, notices, init);
      Taken(c, notices + [EndSession] + init, n);
      assert notices + [EndSession] + later == notices + [EndSession] + init + [n];
    }
  }

  /** Not even a frame that nobody has sent. */
  lemma NothingAfterTheEnd(c: Client, data: seq<byte>)
    requires c.disposed
    ensures AfterData(c, data) == (c, true)
  {
  }
}
