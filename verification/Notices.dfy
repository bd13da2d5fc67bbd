/** Whole sessions of the server's frames: what a client makes of them over the wire, when its handler
    ends its loop, and what the server's answers tell it about its multiplier. */
module Notices {
  import opened BinaryFormat
  import opened Bytes
  import opened Commands
  import opened Framing
  import opened Handshake
  import opened Int32
  import opened Wrappers

  // ----- over the wire -----

  type Taking = (Client, seq<byte>) -> Client    // a client takes a frame
  type Judging = (Client, seq<byte>) -> bool     // whether it refuses it
  type Meaning = (Client, Notice) -> Client      // what a notice means to it
  type Badness = (Client, Notice) -> bool        // whether it should refuse it

  /** A receiver that takes messages one by one. */
  function Fold<S, M>(take: (S, M) -> S, s: S, messages: seq<M>): S {
    if messages == [] then s
    else take(Fold(take, s, messages[..|messages| - 1]), messages[|messages| - 1])
  }

  /** Its handler, which throws on the messages that it refuses. */
  function Refusing(take: Taking, refuses: Judging, c: Client): Handler {
    (handled: seq<seq<byte>>) =>
      handled != [] && refuses(Fold(take, c, handled[..|handled| - 1]), handled[|handled| - 1])
  }

  lemma {:induction false} SameFold(take: Taking, meant: Meaning, c: Client, frames: seq<seq<byte>>, ns: seq<Notice>)
    requires |frames| == |ns| && forall d, i :: 0 <= i < |ns| ==> take(d, frames[i]) == meant(d, ns[i])
    ensures Fold(take, c, frames) == Fold(meant, c, ns)
  {
    if ns != [] {
      SameFold(take, meant, c, frames[..|frames| - 1], ns[..|ns| - 1]);
    }
  }

  /** Messages that mean something to the receiver and frames that carry it. */
  ghost predicate Carried(
      take: Taking, refuses: Judging, meant: Meaning, bad: Badness, frames: seq<seq<byte>>, ns: seq<Notice>)
  {
    && |frames| == |ns|
    && (forall c, i :: 0 <= i < |ns| ==> take(c, frames[i]) == meant(c, ns[i]))
    && (forall c, i :: 0 <= i < |ns| ==> refuses(c, frames[i]) == bad(c, ns[i]))
  }

  lemma {:induction false} RefusesBad(take: Taking, refuses: Judging, meant: Meaning, bad: Badness, c: Client,
                   frames: seq<seq<byte>>, ns: seq<Notice>, k: nat)
    requires Carried(take, refuses, meant, bad, frames, ns) && k < |ns|
    ensures Refusing(take, refuses, c)(frames[..k + 1]) == bad(Fold(meant, c, ns[..k]), ns[k])
  {
    assert frames[..k + 1][..k] == frames[..k];
    SameFold(take, meant, c, frames[..k], ns[..k]);
  }

  /** The receiver stops exactly at the first message that is bad for it, and until then goes by what the
      messages mean. */
  lemma {:induction false} RefusesExactly(take: Taking, refuses: Judging, meant: Meaning, bad: Badness, c: Client,
                       frames: seq<seq<byte>>, ns: seq<Notice>, handled: seq<seq<byte>>)
    requires Carried(take, refuses, meant, bad, frames, ns)
    requires HandedOn(handled, frames, Refusing(take, refuses, c))
    ensures |handled| <= |ns| && Fold(take, c, handled) == Fold(meant, c, ns[..|handled|])
    ensures Threw(handled, Refusing(take, refuses, c))
            <==> exists i :: 0 <= i < |ns| && bad(Fold(meant, c, ns[..i]), ns[i])
    ensures if Threw(handled, Refusing(take, refuses, c))
            then handled != [] && bad(Fold(meant, c, ns[..|handled| - 1]), ns[|handled| - 1])
            else |handled| == |ns|
  {
    var k := |handled|;
    assert handled == frames[..k];
    SameFold(take, meant, c, frames[..k], ns[..k]);
    if Threw(handled, Refusing(take, refuses, c)) {
      RefusesBad(take, refuses, meant, bad, c, frames, ns, k - 1);
      assert bad(Fold(meant, c, ns[..k - 1]), ns[k - 1]);
    } else {
      NoneRefused(take, refuses, meant, bad, c, frames, ns);
    }
  }

  lemma {:induction false} NoneRefused(take: Taking, refuses: Judging, meant: Meaning, bad: Badness, c: Client,
                    frames: seq<seq<byte>>, ns: seq<Notice>)
    requires Carried(take, refuses, meant, bad, frames, ns)
    requires HandedOn(frames, frames, Refusing(take, refuses, c)) && !Threw(frames, Refusing(take, refuses, c))
    ensures forall i :: 0 <= i < |ns| ==> !bad(Fold(meant, c, ns[..i]), ns[i])
  {
    forall i | 0 <= i < |ns| ensures !bad(Fold(meant, c, ns[..i]), ns[i]) {
      RefusesBad(take, refuses, meant, bad, c, frames, ns, i);
      assert i + 1 == |ns| ==> frames[..i + 1] == frames;
    }
  }

  function Take(c: Client, data: seq<byte>): Client {
    AfterData(c, data).0
  }

  predicate Refuses(c: Client, data: seq<byte>) {
    !AfterData(c, data).1
  }

  /** The frame deletes the user of a client that has not been disposed of. */
  predicate Deletes(c: Client, n: Notice) {
    n.Deletion? && !c.disposed
  }

  /** The client's handler, from a state of the client on. */
  function HandlerOf(c: Client): Handler {
    Refusing(Take, Refuses, c)
  }

  /** The client after what frames mean. */
  function AfterNotices(c: Client, notices: seq<Notice>): Client {
    Fold(AfterNotice, c, notices)
  }

  ghost predicate AllFramed(notices: seq<Notice>) {
    forall i :: 0 <= i < |notices| ==> Framed(notices[i])
  }

  function Frames(notices: seq<Notice>): (frames: seq<Text>)
    requires AllFramed(notices)
    ensures |frames| == |notices|
  {
    seq(|notices|, i requires 0 <= i < |notices| => NoticeFrame(notices[i]))
  }

  lemma NoticesCarried(notices: seq<Notice>)
    requires AllFramed(notices)
    ensures Carried(Take, Refuses, AfterNotice, Deletes, Frames(notices), notices)
  {
    var take, refuses, meant, bad := Take, Refuses, AfterNotice, Deletes;
    forall c, i | 0 <= i < |notices|
      ensures take(c, Frames(notices)[i]) == meant(c, notices[i])
      ensures refuses(c, Frames(notices)[i]) == bad(c, notices[i])
    {
      NoticeArrives(c, notices[i]);
    }
  }

  /** What the client has handled means what the server said, and it ends with the first frame that
      deletes the user of a client that has not been disposed of. */
  ghost predicate EndsWithDeletion(c: Client, notices: seq<Notice>, handled: seq<seq<byte>>) {
    && |handled| <= |notices| && Fold(Take, c, handled) == AfterNotices(c, notices[..|handled|])
    && (Threw(handled, HandlerOf(c))
        <==> exists i :: 0 <= i < |notices| && Deletes(AfterNotices(c, notices[..i]), notices[i]))
    && if Threw(handled, HandlerOf(c)) then handled != [] && notices[|handled| - 1].Deletion?
       else |handled| == |notices|
  }

  /** The server's frames reach the client, whose handler throws if and only if one of them deletes its
      user; that is the last frame that it handles. */
  lemma DeletionExact(c: Client, notices: seq<Notice>)
    requires AllFramed(notices)
    ensures Decode(Framing.Client, EncodeAll(Frames(notices))).messages == Frames(notices)
    ensures forall handled :: HandedOn(handled, Frames(notices), HandlerOf(c)) ==> EndsWithDeletion(c, notices, handled)
  {
    AllArrive(notices);
    NoticesCarried(notices);
    var take, refuses, meant, bad := Take, Refuses, AfterNotice, Deletes;
    forall handled | HandedOn(handled, Frames(notices), HandlerOf(c)) ensures EndsWithDeletion(c, notices, handled) {
      RefusesExactly(take, refuses, meant, bad, c, Frames(notices), notices, handled);
    }
  }

  lemma AllArrive(notices: seq<Notice>)
    requires AllFramed(notices)
    ensures Decode(Framing.Client, EncodeAll(Frames(notices))).messages == Frames(notices)
  {
    var frames := Frames(notices);
    ClientDelivers(frames);
    forall i | 0 <= i < |frames| ensures frames[i] != [] {
      NoticeNotEmpty(notices[i]);
    }
    NonEmptyAll(frames);
  }

  lemma NoticeNotEmpty(n: Notice)
    requires Framed(n)
    ensures NoticeFrame(n) != []
  {
    var command: Text := match n
      case Types(_) => INIT
      case Challenge(_) => AUTHENTICATE
      case Verdict(_, _) => RESULT
      case EndSession => END
      case _ => UPDATE;
    assert |WriteString(command)| > 0 && |NoticeFrame(n)| >= |WriteString(command)|;
  }

  lemma {:induction false} NonEmptyAll(frames: seq<Text>)
    requires forall i :: 0 <= i < |frames| ==> frames[i] != []
    ensures NonEmpty(frames) == frames
  {
    if frames != [] {
      NonEmptyAll(frames[1..]);
    }
  }

  // ----- what a session tells the client -----

  /** What the server answers to a command, given the multiplier of the anonymous user. */
  function Replies(request: Request, templates: seq<Template>, multiplier: int32): seq<Notice> {
    if request.Initialize? then
      [Types(templates)] + if multiplier != DEFAULT_MULTIPLIER then [Multiplier(multiplier)] else []
    else []
  }

  /** The server's answer to INIT. */
  method AnswerInitialize(templates: seq<Template>, multiplier: int32) returns (frames: seq<seq<byte>>)
    requires |templates| < 0x8000_0000
    ensures var replies := Replies(Initialize, templates, multiplier);
            |frames| == |replies| && forall i :: 0 <= i < |frames| ==> frames[i] == NoticeFrame(replies[i])
  {
    var frame := SendTable(templates);
    frames := [frame];
    if multiplier != DEFAULT_MULTIPLIER {
      frame := SendMultiplierUpdate(multiplier);
      frames := frames + [frame];
    }
  }

  /** What the server sends during an authentication, given the multiplier of the user it ends with. */
  function LoginNotices(token: Text, success: bool, reason: Text, multiplier: int32): seq<Notice> {
    [Challenge(token), Verdict(success, reason)]
    + if multiplier != DEFAULT_MULTIPLIER then [Multiplier(multiplier)] else []
  }

  /** A new client shows the multiplier 1, and the server mentions every other one. */
  lemma OneGoesWithoutSaying(templates: seq<Template>, token: Text, success: bool, reason: Text, multiplier: int32)
    ensures NEW == Client.Client(map[], None, None, None, None, 1, false, [])
    ensures Replies(Initialize, templates, multiplier)
            == if multiplier == 1 then [Types(templates)] else [Types(templates), Multiplier(multiplier)]
    ensures LoginNotices(token, success, reason, multiplier)
            == if multiplier == 1 then [Challenge(token), Verdict(success, reason)]
               else [Challenge(token), Verdict(success, reason), Multiplier(multiplier)]
  {
  }

  /** After the answers to INIT a new client has the table and the multiplier. */
  lemma HandshakeInforms(templates: seq<Template>, multiplier: int32)
    ensures var c := AfterNotices(NEW, Replies(Initialize, templates, multiplier));
            c.table == TableOf(templates) && c.handshake == Some(Completed) && c.multiplier == multiplier && !c.disposed
  {
    Taken(NEW, [], Types(templates));
    Taken(NEW, [Types(templates)], Multiplier(multiplier));
  }

  lemma Taken(c: Client, notices: seq<Notice>, n: Notice)
    ensures AfterNotices(c, notices + [n]) == AfterNotice(AfterNotices(c, notices), n)
    ensures AfterNotices(c, []) == c && [] + [n] == [n]
  {
    assert (notices + [n])[..|notices|] == notices;
  }

  /** After a login the client shows its user's multiplier if and only if that is not the default, or the
      default is what it showed before: the server keeps quiet about the default. */
  lemma LoginInformsExact(c: Client, token: Text, success: bool, reason: Text, multiplier: int32)
    requires !c.disposed
    ensures AfterNotices(c, LoginNotices(token, success, reason, multiplier)).multiplier == multiplier
            <==> multiplier != 1 || c.multiplier == 1
  {
    Taken(c, [], Challenge(token));
    Taken(c, [Challenge(token)], Verdict(success, reason));
    Taken(c, [Challenge(token), Verdict(success, reason)], Multiplier(multiplier));
    assert [Challenge(token)] + [Verdict(success, reason)] == [Challenge(token), Verdict(success, reason)];
    assert [Challenge(token), Verdict(success, reason)] + [] == [Challenge(token), Verdict(success, reason)];
  }
}
