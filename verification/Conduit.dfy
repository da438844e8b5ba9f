/** The invitation conduit: what talking and listening do to it, and the component that holds it. */
module ConduitModel {
  import opened Common
  import opened Certificates

  datatype ConduitState =
    | WaitPeers | ClaimerHashedNonce | GreeterNonce | ClaimerNonce | ClaimerTrust | GreeterTrust | Communicate

  function Next(state: ConduitState): ConduitState {
    match state
    case WaitPeers => ClaimerHashedNonce
    case ClaimerHashedNonce => GreeterNonce
    case GreeterNonce => ClaimerNonce
    case ClaimerNonce => ClaimerTrust
    case ClaimerTrust => GreeterTrust
    case GreeterTrust => Communicate
    case Communicate => Communicate
  }

  datatype Side = Greeter | Claimer

  function Peer(side: Side): Side { if side == Greeter then Claimer else Greeter }

  datatype Conduit = Conduit(state: ConduitState, claimerPayload: Option<Bytes>, greeterPayload: Option<Bytes>) {
    function Payload(side: Side): Option<Bytes> {
      if side == Greeter then greeterPayload else claimerPayload
    }

    function With(side: Side, payload: Bytes): Conduit {
      if side == Greeter then this.(greeterPayload := Some(payload)) else this.(claimerPayload := Some(payload))
    }
  }

  const NEW_CONDUIT := Conduit(WaitPeers, None, None)

  datatype ListenCtx = ListenCtx(side: Side, state: ConduitState, payload: Bytes, peerPayload: Option<Bytes>)

  /** Out of step with the conduit, or talking twice in one state. */
  predicate OutOfSync(conduit: Conduit, side: Side, state: ConduitState) {
    conduit.state != state || conduit.Payload(side).Some?
  }

  predicate Resets(conduit: Conduit, side: Side, state: ConduitState) {
    OutOfSync(conduit, side, state) && state == WaitPeers
  }

  predicate TalkRefused(conduit: Conduit, side: Side, state: ConduitState) {
    OutOfSync(conduit, side, state) && state != WaitPeers
  }

  function Talk(conduit: Conduit, side: Side, state: ConduitState, payload: Bytes): (Conduit, ListenCtx) {
    var base := if Resets(conduit, side, state) then NEW_CONDUIT else conduit;
    (base.With(side, payload), ListenCtx(side, state, payload, base.Payload(Peer(side))))
  }

  datatype Heard = InvalidState | KeepWaiting | Got(payload: Bytes, consumed: bool)

  function Listen(conduit: Conduit, ctx: ListenCtx): Heard {
    var ours := conduit.Payload(ctx.side);
    var theirs := conduit.Payload(Peer(ctx.side));
    match ctx.peerPayload
    case None =>
      if conduit.state != ctx.state || ours != Some(ctx.payload) then InvalidState
      else if theirs.Some? then Got(theirs.value, true)
      else KeepWaiting
    case Some(peerPayload) =>
      if conduit.state == Next(ctx.state) && ours.None? then Got(peerPayload, false)
      else if conduit.state != ctx.state || ours != Some(ctx.payload) || theirs != Some(peerPayload) then InvalidState
      else KeepWaiting
  }

  function AfterListen(conduit: Conduit, ctx: ListenCtx): Conduit {
    var heard := Listen(conduit, ctx);
    if heard.Got? && heard.consumed then Conduit(Next(ctx.state), None, None) else conduit
  }

  // ---------- the component ----------

  type Token = Bytes

  datatype InviteError = NotFound | AlreadyDeleted | InvalidConduitState

  datatype TokenCtx = TokenCtx(token: Token, greeter: Option<UserId>, listen: ListenCtx)

  function SideOf(greeter: Option<UserId>): Side { if greeter.Some? then Greeter else Claimer }

  class MemoryInviteComponent {
    /** The greeter of each invitation. */
    var invitations: map<Token, UserId>
    var deletedInvitations: set<Token>
    var conduits: map<Token, Conduit>
    /** The event channel: one entry per update of a conduit. */
    var events: seq<Token>

    constructor ()
      ensures invitations == map[] && deletedInvitations == {} && conduits == map[] && events == []
    {
      invitations, deletedInvitations, conduits, events := map[], {}, map[], [];
    }

    /** The conduit of an invitation, a new one when it was never used. */
    function ConduitOf(token: Token): Conduit
      reads this
    {
      if token in conduits then conduits[token] else NEW_CONDUIT
    }

    function Lookup(token: Token, expectedGreeter: Option<UserId>): Option<InviteError>
      reads this
    {
      if token !in invitations ||
        (expectedGreeter.Some? && invitations[token] != expectedGreeter.value) then Some(NotFound)
      else if token in deletedInvitations then Some(AlreadyDeleted)
      else None
    }

    /** The invitation is there, not deleted, and a greeter is the one that made it. */
    ghost predicate Granted(token: Token, greeter: Option<UserId>)
      reads this
    {
      && token in invitations && token !in deletedInvitations
      && (greeter.Some? ==> invitations[token] == greeter.value)
    }

    /**
     A talk that finds its invitation fails only after the first state, when it is out of step or its side
     has spoken already.  In the first state it starts over instead, and what the peer said is dropped.
     */
    method ConduitTalk(greeter: Option<UserId>, token: Token, state: ConduitState, payload: Bytes)
      returns (r: Result<TokenCtx, InviteError>)
      modifies this`conduits, this`events
      ensures var refused := old(Lookup(token, greeter).Some? || TalkRefused(ConduitOf(token), SideOf(greeter), state));
        && (r.Err? <==> refused)
        && (refused ==>
              && r.error == (if old(Lookup(token, greeter)).Some? then
                old(Lookup(token, greeter)).value else InvalidConduitState)
              && events == old(events) && forall t :: ConduitOf(t) == old(ConduitOf(t)))
        && (!refused ==>
              var (conduit, ctx) := Talk(old(ConduitOf(token)), SideOf(greeter), state, payload);
              && r == Ok(TokenCtx(token, greeter, ctx)) && events == old(events) + [token]
              && forall t :: ConduitOf(t) == if t == token then conduit else old(ConduitOf(t)))
      ensures r.Ok? ==> Granted(token, greeter)
      ensures old(Granted(token, greeter)) ==>
        var before := old(ConduitOf(token));
        var spoken := if greeter.Some? then before.greeterPayload else before.claimerPayload;
        && (r.Err? <==> state != WaitPeers && (before.state != state || spoken.Some?))
        && (r.Err? ==> r.error == InvalidConduitState)
        && (r.Ok? ==>
              var peer := if greeter.Some? then before.claimerPayload else before.greeterPayload;
              var kept := if before.state == state && spoken.None? then peer else None;
              && r.value.listen.payload == payload && r.value.listen.peerPayload == kept
              && ConduitOf(token) ==
                 if greeter.Some? then Conduit(state, kept, Some(payload)) else Conduit(state, Some(payload), kept))
    {
      var error := Lookup(token, greeter);
      if error.Some? { return Err(error.value); }
      var conduit := ConduitOf(token);
      var side := SideOf(greeter);
      var ours, theirs := conduit.Payload(side), conduit.Payload(Peer(side));
      if conduit.state != state || ours.Some? {
        if state == WaitPeers {
          conduit := conduit.(state := state, claimerPayload := None, greeterPayload := None);
          theirs := None;
        } else {
          return Err(InvalidConduitState);
        }
      }
      if greeter.Some? {
        conduit := conduit.(greeterPayload := Some(payload));
      } else {
        conduit := conduit.(claimerPayload := Some(payload));
      }
      conduits, events := conduits[token := conduit], events + [token];
      return Ok(TokenCtx(token, greeter, ListenCtx(side, state, payload, theirs)));
    }

    method ConduitListen(ctx: TokenCtx) returns (r: Result<Option<Bytes>, InviteError>)
      modifies this`conduits, this`events
      ensures old(Lookup(ctx.token, ctx.greeter)).Some? ==>
        r == Err(old(Lookup(ctx.token, ctx.greeter)).value) && events == old(events) && conduits == old(conduits)
      ensures old(Lookup(ctx.token, ctx.greeter)).None? ==>
        var heard := Listen(old(ConduitOf(ctx.token)), ctx.listen);
        && r == (match heard
                 case InvalidState => Err(InvalidConduitState)
                 case KeepWaiting => Ok(None)
                 case Got(payload, _) => Ok(Some(payload)))
        && (forall t :: ConduitOf(t) == if t == ctx.token then
          AfterListen(old(ConduitOf(t)), ctx.listen) else old(ConduitOf(t)))
        && events == old(events) + if heard.Got? && heard.consumed then [ctx.token] else []
      ensures r.Ok? ==> Granted(ctx.token, ctx.greeter)
    {
      var error := Lookup(ctx.token, ctx.greeter);
      if error.Some? { return Err(error.value); }
      var conduit := ConduitOf(ctx.token);
      var ours, theirs := conduit.Payload(ctx.listen.side), conduit.Payload(Peer(ctx.listen.side));
      if ctx.listen.peerPayload.None? {
        if conduit.state != ctx.listen.state || ours != Some(ctx.listen.payload) {
          return Err(InvalidConduitState);
        }
        if theirs.Some? {
          conduit := conduit.(state := Next(ctx.listen.state), greeterPayload := None, claimerPayload := None);
          conduits, events := conduits[ctx.token := conduit], events + [ctx.token];
          return Ok(theirs);
        }
      } else {
        if conduit.state == Next(ctx.listen.state) && ours.None? {
          return Ok(ctx.listen.peerPayload);
        } else if conduit.state != ctx.listen.state || ours != Some(ctx.listen.payload) ||
          theirs != ctx.listen.peerPayload {
          return Err(InvalidConduitState);
        }
      }
      return Ok(None);
    }
  }
}
