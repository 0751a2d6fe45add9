/** Concurrent puts of one block into the file store, as a transition system: any number of puts, one
    atomic action at a time, in any order. */
module BlockWriter {
  import opened Common

  /** Where a put is. `Joined` has a channel, `Won` has created the target file, `Renamed` has put the
      complete block there; `Free` phases have removed the key from the map of ongoing writes. */
  datatype Phase =
    | Begun
    | Joined
    | Won | Renamed | WonFree | Sent | Released | NewBlock
    | Lost | LostFree | Waiting | Existed

  /** A put, the channel it joined, and how many messages the channel had carried by then. */
  datatype Put = Put(phase: Phase, channel: nat, seen: nat)

  datatype File = Absent | Created | Complete

  /** `ongoing` is the key's entry in the map of ongoing writes; `messages` counts per channel. */
  datatype State = State(puts: seq<Put>, ongoing: Option<nat>, messages: seq<nat>, file: File, written: nat)

  predicate Finished(p: Put) { p.phase == NewBlock || p.phase == Existed }

  /** The put keeps its sender. */
  predicate HoldsSender(p: Put) {
    (p.phase.Joined? || p.phase.Won? || p.phase.Renamed? || p.phase.WonFree? || p.phase.Sent? || p.phase.Lost? || p.phase.LostFree?)
  }

  /** The put has not yet removed the key. */
  predicate HoldsKey(p: Put) { (p.phase.Joined? || p.phase.Won? || p.phase.Renamed? || p.phase.Lost?) }

  predicate IsWinner(p: Put) { (p.phase.Won? || p.phase.Renamed? || p.phase.WonFree? || p.phase.Sent? || p.phase.Released? || p.phase.NewBlock?) }

  predicate HasRenamed(p: Put) { IsWinner(p) && p.phase != Won }

  predicate HasSent(p: Put) { (p.phase.Sent? || p.phase.Released? || p.phase.NewBlock?) }

  /** Every sender of the channel is gone. */
  ghost predicate Closed(s: State, channel: nat) {
    s.ongoing != Some(channel) && forall j :: 0 <= j < |s.puts| ==> !(HoldsSender(s.puts[j]) && s.puts[j].channel == channel)
  }

  ghost predicate CanMove(s: State, i: nat) {
    && i < |s.puts| && !Finished(s.puts[i])
    && var p := s.puts[i];
       p.phase == Waiting && p.channel < |s.messages| ==> s.messages[p.channel] > p.seen || Closed(s, p.channel)
  }

  datatype Moved = To(state: State) | Lagged

  function With(s: State, i: nat, p: Put): State
    requires i < |s.puts|
  {
    s.(puts := s.puts[i := p])
  }

  /** The next action of put `i` of a block of `size` bytes. A receiver that missed a message panics. */
  function Move(s: State, i: nat, size: nat): Moved
    requires i < |s.puts| && (s.puts[i].phase != Begun ==> s.puts[i].channel < |s.messages|)
    requires s.ongoing.Some? ==> s.ongoing.value < |s.messages|
  {
    var p := s.puts[i];
    match p.phase
    case Begun =>
      (match s.ongoing
       case Some(c) => To(With(s, i, Put(Joined, c, s.messages[c])))
       case None => To(With(s, i, Put(Joined, |s.messages|, 0)).(ongoing := Some(|s.messages|), messages := s.messages + [0])))
    case Joined =>
      if s.file == Absent then To(With(s, i, p.(phase := Won)).(file := Created)) else To(With(s, i, p.(phase := Lost)))
    case Won => To(With(s, i, p.(phase := Renamed)).(file := Complete))
    case Renamed => To(With(s, i, p.(phase := WonFree)).(ongoing := None))
    case WonFree => To(With(s, i, p.(phase := Sent)).(messages := s.messages[p.channel := s.messages[p.channel] + 1]))
    case Sent => To(With(s, i, p.(phase := Released)))
    case Released => To(With(s, i, p.(phase := NewBlock)).(written := s.written + size))
    case Lost => To(With(s, i, p.(phase := LostFree)).(ongoing := None))
    case LostFree => To(With(s, i, p.(phase := Waiting)))
    case Waiting => if s.messages[p.channel] > p.seen + 1 then Lagged else To(With(s, i, p.(phase := Existed)))
    case NewBlock => To(s)
    case Existed => To(s)
  }

  /** What a move of put `i` leaves alone: the other puts, and whatever its phase does not touch. Only
      removing the key clears the entry of the map, whichever channel it names; only the winner's phases
      touch the file, its channel and the bytes. */
  lemma {:induction false} MoveTouches(s: State, i: nat, size: nat, j: nat)
    requires i < |s.puts| && (s.puts[i].phase != Begun ==> s.puts[i].channel < |s.messages|)
    requires s.ongoing.Some? ==> s.ongoing.value < |s.messages|
    requires Move(s, i, size).To?
    ensures var t, was := Move(s, i, size).state, s.puts[i];
            && |t.puts| == |s.puts| && (j < |s.puts| && j != i ==> t.puts[j] == s.puts[j])
            && (was.phase != Begun ==> t.puts[i].channel == was.channel && t.puts[i].seen == was.seen)
            && (was.phase == Begun && s.ongoing.None? ==>
                  t == State(t.puts, Some(|s.messages|), s.messages + [0], s.file, s.written) && t.puts[i] == Put(Joined, |s.messages|, 0))
            && (was.phase == Begun && s.ongoing.Some? ==>
                  t == s.(puts := t.puts) && t.puts[i] == Put(Joined, s.ongoing.value, s.messages[s.ongoing.value]))
            && (was.phase == Joined ==>
                  t == s.(puts := t.puts, file := if s.file == Absent then Created else s.file)
                  && t.puts[i].phase == if s.file == Absent then Won else Lost)
            && (was.phase == Won ==> t == s.(puts := t.puts, file := Complete) && t.puts[i].phase == Renamed)
            && (was.phase == Renamed ==> t == s.(puts := t.puts, ongoing := None) && t.puts[i].phase == WonFree)
            && (was.phase == Lost ==> t == s.(puts := t.puts, ongoing := None) && t.puts[i].phase == LostFree)
            && (was.phase == WonFree ==>
                  t == s.(puts := t.puts, messages := s.messages[was.channel := s.messages[was.channel] + 1]) && t.puts[i].phase == Sent)
            && (was.phase == Sent ==> t == s.(puts := t.puts) && t.puts[i].phase == Released)
            && (was.phase == LostFree ==> t == s.(puts := t.puts) && t.puts[i].phase == Waiting)
            && (was.phase == Released ==> t == s.(puts := t.puts, written := s.written + size) && t.puts[i].phase == NewBlock)
            && (was.phase == Waiting ==> t == s.(puts := t.puts) && t.puts[i].phase == Existed)
  {
  }

  /** A put panics exactly when it waits on a channel that carried more than one message since. */
  lemma {:induction false} LaggedWhen(s: State, i: nat, size: nat)
    requires i < |s.puts| && (s.puts[i].phase != Begun ==> s.puts[i].channel < |s.messages|)
    requires s.ongoing.Some? ==> s.ongoing.value < |s.messages|
    ensures Move(s, i, size).Lagged? <==> s.puts[i].phase == Waiting && s.messages[s.puts[i].channel] >= s.puts[i].seen + 2
  {
  }

  function NewPuts(n: nat): (puts: seq<Put>)
    ensures |puts| == n && forall i :: 0 <= i < n ==> puts[i] == Put(Begun, 0, 0)
  {
    if n == 0 then [] else [Put(Begun, 0, 0)] + NewPuts(n - 1)
  }

  /** `n` puts about to begin. */
  function Initial(n: nat, file: File, written: nat): State {
    State(NewPuts(n), None, [], file, written)
  }

  // ---------------------------------------------------------------------------------------------
  // The invariant. `winner` is the put that created the file.

  ghost predicate PutsOk(s: State) {
    forall i :: 0 <= i < |s.puts| && s.puts[i].phase != Begun ==> s.puts[i].channel < |s.messages| && s.puts[i].seen == 0
  }

  /** The map's channel carried no message; the put that made the entry still has to remove it, and
      no put on that channel has removed it. */
  ghost predicate OngoingOk(s: State) {
    s.ongoing.Some? ==>
      && s.ongoing.value < |s.messages| && s.messages[s.ongoing.value] == 0
      && (exists i :: 0 <= i < |s.puts| && HoldsKey(s.puts[i]) && s.puts[i].channel == s.ongoing.value)
      && forall i :: 0 <= i < |s.puts| && s.puts[i].phase != Begun && !HoldsKey(s.puts[i]) ==> s.puts[i].channel != s.ongoing.value
  }

  ghost predicate OneWinner(s: State, winner: Option<nat>) {
    && (winner.Some? ==> winner.value < |s.puts|)
    && forall i :: 0 <= i < |s.puts| ==> (IsWinner(s.puts[i]) <==> winner == Some(i))
  }

  /** The file and the written bytes show how far the winner is. */
  ghost predicate FileOk(s: State, winner: Option<nat>, file: File, written: nat, size: nat)
    requires winner.Some? ==> winner.value < |s.puts|
  {
    match winner
    case None => s.file == file && s.written == written
    case Some(w) =>
      && file == Absent
      && s.file == (if HasRenamed(s.puts[w]) then Complete else Created)
      && s.written == written + if s.puts[w].phase == NewBlock then size else 0
  }

  /** A channel carries the winner's one message or none. */
  ghost predicate MessagesOk(s: State, winner: Option<nat>)
    requires winner.Some? ==> winner.value < |s.puts|
  {
    forall c :: 0 <= c < |s.messages| ==>
      s.messages[c] == if winner.Some? && HasSent(s.puts[winner.value]) && s.puts[winner.value].channel == c then 1 else 0
  }

  predicate HasLost(p: Put) { (p.phase.Lost? || p.phase.LostFree? || p.phase.Waiting? || p.phase.Existed?) }

  /** A put loses only to a file that is there, and returns on the winner's channel only after its message. */
  ghost predicate LosersOk(s: State, winner: Option<nat>)
    requires winner.Some? ==> winner.value < |s.puts|
  {
    forall i :: 0 <= i < |s.puts| && HasLost(s.puts[i]) ==>
      && s.file != Absent
      && (winner.Some? && s.puts[i].phase == Existed && s.puts[i].channel == s.puts[winner.value].channel
          ==> HasSent(s.puts[winner.value]))
  }

  ghost predicate Inv(s: State, winner: Option<nat>, file: File, written: nat, size: nat) {
    && PutsOk(s) && OngoingOk(s) && OneWinner(s, winner)
    && FileOk(s, winner, file, written, size) && MessagesOk(s, winner) && LosersOk(s, winner)
  }

  lemma {:induction false} InitialInv(n: nat, file: File, written: nat, size: nat)
    ensures Inv(Initial(n, file, written), None, file, written, size)
  {
  }

  /** The winner after a move of put `i`. */
  ghost function NextWinner(s: State, i: nat, winner: Option<nat>): Option<nat>
    requires i < |s.puts|
  {
    if s.puts[i].phase == Joined && s.file == Absent then Some(i) else winner
  }

  lemma {:induction false} MoveKeepsInv(s: State, i: nat, winner: Option<nat>, file: File, written: nat, size: nat)
    requires Inv(s, winner, file, written, size) && CanMove(s, i)
    ensures Move(s, i, size).To?
    ensures Inv(Move(s, i, size).state, NextWinner(s, i, winner), file, written, size)
  {
    hide Inv, CanMove;
    InvParts(s, i, winner, file, written, size);
    match s.puts[i].phase {
      case Begun =>
        if s.ongoing.Some? {
          JoinKeeps(s, i, winner, file, written, size);
        } else {
          OpenKeeps(s, i, winner, file, written, size);
        }
      case Joined =>
        if s.file == Absent {
          CreateKeeps(s, i, winner, file, written, size);
        } else {
          LoseKeeps(s, i, winner, file, written, size);
        }
      case Won => RenameKeeps(s, i, winner, file, written, size);
      case Renamed => RemoveKeyKeeps(s, i, WonFree, winner, file, written, size);
      case WonFree => SendKeeps(s, i, winner, file, written, size);
      case Sent => DropSenderKeeps(s, i, Released, winner, file, written, size);
      case Released => CountKeeps(s, i, winner, file, written, size);
      case Lost => RemoveKeyKeeps(s, i, LostFree, winner, file, written, size);
      case LostFree => DropSenderKeeps(s, i, Waiting, winner, file, written, size);
      case Waiting => ReceiveKeeps(s, i, winner, file, written, size);
    }
  }

  lemma {:induction false} InvParts(s: State, i: nat, winner: Option<nat>, file: File, written: nat, size: nat)
    requires Inv(s, winner, file, written, size) && CanMove(s, i)
    ensures i < |s.puts| && !Finished(s.puts[i]) && PutsOk(s) && OngoingOk(s)
  {
    hide PutsOk, OngoingOk, OneWinner, FileOk, MessagesOk, LosersOk;
  }

  lemma {:induction false} JoinKeeps(s: State, i: nat, winner: Option<nat>, file: File, written: nat, size: nat)
    requires Inv(s, winner, file, written, size) && i < |s.puts| && s.puts[i].phase == Begun && s.ongoing.Some?
    ensures var c := s.ongoing.value;
            c < |s.messages| && Inv(With(s, i, Put(Joined, c, s.messages[c])), winner, file, written, size)
  {
    var t := With(s, i, Put(Joined, s.ongoing.value, 0));
    assert HoldsKey(t.puts[i]) && t.puts[i].channel == t.ongoing.value;
  }

  lemma {:induction false} OpenedOk(s: State, t: State, i: nat)
    requires PutsOk(s) && i < |s.puts|
    requires t == With(s, i, Put(Joined, |s.messages|, 0)).(ongoing := Some(|s.messages|), messages := s.messages + [0])
    ensures OngoingOk(t)
  {
    assert HoldsKey(t.puts[i]) && t.puts[i].channel == t.ongoing.value;
  }

  lemma {:induction false} OpenKeeps(s: State, i: nat, winner: Option<nat>, file: File, written: nat, size: nat)
    requires Inv(s, winner, file, written, size) && i < |s.puts| && s.puts[i].phase == Begun && s.ongoing.None?
    ensures var c := |s.messages|;
            Inv(With(s, i, Put(Joined, c, 0)).(ongoing := Some(c), messages := s.messages + [0]), winner, file, written, size)
  {
    var c := |s.messages|;
    var t := With(s, i, Put(Joined, c, 0)).(ongoing := Some(c), messages := s.messages + [0]);
    assert OngoingOk(t) by {
      hide OngoingOk, FileOk, MessagesOk, LosersOk, OneWinner;
      OpenedOk(s, t, i);
    }
    hide OngoingOk;
  }

  /** A move that leaves the map's entry alone and does not change whether its put holds the key. */
  lemma {:induction false} OngoingKept(s: State, t: State, i: nat, p: Put)
    requires OngoingOk(s) && i < |s.puts| && s.puts[i].phase != Begun && p.phase != Begun
    requires p.channel == s.puts[i].channel && (HoldsKey(p) <==> HoldsKey(s.puts[i]))
    requires t.puts == s.puts[i := p] && t.ongoing == s.ongoing && |t.messages| == |s.messages|
    requires s.ongoing.Some? ==> t.messages[s.ongoing.value] == 0
    ensures OngoingOk(t)
  {
    if s.ongoing.Some? {
      var k :| 0 <= k < |s.puts| && HoldsKey(s.puts[k]) && s.puts[k].channel == s.ongoing.value;
      assert HoldsKey(t.puts[k]) && t.puts[k].channel == t.ongoing.value;
    }
  }

  lemma {:induction false} CreateKeeps(s: State, i: nat, winner: Option<nat>, file: File, written: nat, size: nat)
    requires Inv(s, winner, file, written, size) && i < |s.puts| && s.puts[i].phase == Joined && s.file == Absent
    ensures Inv(With(s, i, s.puts[i].(phase := Won)).(file := Created), Some(i), file, written, size)
  {
    var p := s.puts[i].(phase := Won);
    var t := With(s, i, p).(file := Created);
    OngoingKept(s, t, i, p);
    hide OngoingOk;
    assert winner.None?;
  }

  lemma {:induction false} LoseKeeps(s: State, i: nat, winner: Option<nat>, file: File, written: nat, size: nat)
    requires Inv(s, winner, file, written, size) && i < |s.puts| && s.puts[i].phase == Joined && s.file != Absent
    ensures Inv(With(s, i, s.puts[i].(phase := Lost)), winner, file, written, size)
  {
    var p := s.puts[i].(phase := Lost);
    OngoingKept(s, With(s, i, p), i, p);
    hide OngoingOk;
  }

  lemma {:induction false} RenameKeeps(s: State, i: nat, winner: Option<nat>, file: File, written: nat, size: nat)
    requires Inv(s, winner, file, written, size) && i < |s.puts| && s.puts[i].phase == Won
    ensures Inv(With(s, i, s.puts[i].(phase := Renamed)).(file := Complete), winner, file, written, size)
  {
    var p := s.puts[i].(phase := Renamed);
    OngoingKept(s, With(s, i, p).(file := Complete), i, p);
    hide OngoingOk;
  }

  lemma {:induction false} RemoveKeyKeeps(s: State, i: nat, phase: Phase, winner: Option<nat>, file: File, written: nat, size: nat)
    requires Inv(s, winner, file, written, size) && i < |s.puts|
    requires (s.puts[i].phase == Renamed && phase == WonFree) || (s.puts[i].phase == Lost && phase == LostFree)
    ensures Inv(With(s, i, s.puts[i].(phase := phase)).(ongoing := None), winner, file, written, size)
  {
  }

  lemma {:induction false} SendKeeps(s: State, i: nat, winner: Option<nat>, file: File, written: nat, size: nat)
    requires Inv(s, winner, file, written, size) && i < |s.puts| && s.puts[i].phase == WonFree
    ensures var c := s.puts[i].channel;
            && c < |s.messages|
            && Inv(With(s, i, s.puts[i].(phase := Sent)).(messages := s.messages[c := s.messages[c] + 1]), winner, file, written, size)
  {
    var p, c := s.puts[i].(phase := Sent), s.puts[i].channel;
    assert winner == Some(i);
    OngoingKept(s, With(s, i, p).(messages := s.messages[c := s.messages[c] + 1]), i, p);
    hide OngoingOk;
  }

  lemma {:induction false} DropSenderKeeps(s: State, i: nat, phase: Phase, winner: Option<nat>, file: File, written: nat, size: nat)
    requires Inv(s, winner, file, written, size) && i < |s.puts|
    requires (s.puts[i].phase == Sent && phase == Released) || (s.puts[i].phase == LostFree && phase == Waiting)
    ensures Inv(With(s, i, s.puts[i].(phase := phase)), winner, file, written, size)
  {
    var p := s.puts[i].(phase := phase);
    OngoingKept(s, With(s, i, p), i, p);
    hide OngoingOk;
  }

  lemma {:induction false} CountKeeps(s: State, i: nat, winner: Option<nat>, file: File, written: nat, size: nat)
    requires Inv(s, winner, file, written, size) && i < |s.puts| && s.puts[i].phase == Released
    ensures Inv(With(s, i, s.puts[i].(phase := NewBlock)).(written := s.written + size), winner, file, written, size)
  {
    var p := s.puts[i].(phase := NewBlock);
    OngoingKept(s, With(s, i, p).(written := s.written + size), i, p);
    hide OngoingOk;
  }

  /** A put that may stop waiting on the winner's channel does so after the winner's message. */
  lemma {:induction false} ReceivesAfterSending(s: State, i: nat, winner: Option<nat>)
    requires OneWinner(s, winner) && MessagesOk(s, winner) && PutsOk(s) && CanMove(s, i) && s.puts[i].phase == Waiting
    ensures winner.Some? && s.puts[winner.value].channel == s.puts[i].channel ==> HasSent(s.puts[winner.value])
    ensures s.messages[s.puts[i].channel] <= s.puts[i].seen + 1
  {
    if winner.Some? && !HasSent(s.puts[winner.value]) {
      assert HoldsSender(s.puts[winner.value]);
    }
  }

  lemma {:induction false} ReceiveKeeps(s: State, i: nat, winner: Option<nat>, file: File, written: nat, size: nat)
    requires Inv(s, winner, file, written, size) && CanMove(s, i) && s.puts[i].phase == Waiting
    ensures s.puts[i].channel < |s.messages| && s.messages[s.puts[i].channel] <= s.puts[i].seen + 1
    ensures Inv(With(s, i, s.puts[i].(phase := Existed)), winner, file, written, size)
  {
    var p := s.puts[i].(phase := Existed);
    ReceivesAfterSending(s, i, winner);
    OngoingKept(s, With(s, i, p), i, p);
    hide OngoingOk, CanMove;
  }

  // ---------------------------------------------------------------------------------------------
  // Progress

  function Rank(p: Phase): nat {
    match p
    case Begun => 7
    case Joined => 6
    case Won => 5
    case Renamed => 4
    case WonFree => 3
    case Sent => 2
    case Released => 1
    case Lost => 3
    case LostFree => 2
    case Waiting => 1
    case NewBlock => 0
    case Existed => 0
  }

  function Left(puts: seq<Put>): nat {
    if puts == [] then 0 else Rank(puts[0].phase) + Left(puts[1..])
  }

  lemma {:induction false} LeftUpdate(puts: seq<Put>, i: nat, p: Put)
    requires i < |puts|
    ensures Left(puts[i := p]) == Left(puts) - Rank(puts[i].phase) + Rank(p.phase)
    decreases puts
  {
    if i == 0 {
      assert puts[i := p][1..] == puts[1..];
    } else {
      assert puts[i := p][1..] == puts[1..][i - 1 := p];
      LeftUpdate(puts[1..], i - 1, p);
    }
  }

  /** Every move brings its put nearer to its end. */
  lemma {:induction false} MoveShrinks(s: State, i: nat, winner: Option<nat>, file: File, written: nat, size: nat)
    requires Inv(s, winner, file, written, size) && CanMove(s, i)
    ensures Move(s, i, size).To? && Left(Move(s, i, size).state.puts) < Left(s.puts)
  {
    hide FileOk, MessagesOk, LosersOk, OneWinner, Move;
    MoveKeepsInv(s, i, winner, file, written, size);
    MoveRank(s, i, winner, file, written, size);
    LeftUpdate(s.puts, i, Move(s, i, size).state.puts[i]);
  }

  lemma {:induction false} MoveRank(s: State, i: nat, winner: Option<nat>, file: File, written: nat, size: nat)
    requires Inv(s, winner, file, written, size) && CanMove(s, i) && Move(s, i, size).To?
    ensures var t := Move(s, i, size).state;
            |t.puts| == |s.puts| && t.puts == s.puts[i := t.puts[i]] && Rank(t.puts[i].phase) < Rank(s.puts[i].phase)
  {
    hide FileOk, MessagesOk, LosersOk, OneWinner;
  }

  /** No reachable state is stuck: while a put has not returned, some put can move. */
  lemma {:induction false} NeverStuck(s: State, winner: Option<nat>, file: File, written: nat, size: nat)
    requires Inv(s, winner, file, written, size)
    requires exists i :: 0 <= i < |s.puts| && !Finished(s.puts[i])
    ensures exists i :: CanMove(s, i)
  {
    if i :| 0 <= i < |s.puts| && !Finished(s.puts[i]) && s.puts[i].phase != Waiting {
      assert CanMove(s, i);
    } else {
      var i :| 0 <= i < |s.puts| && !Finished(s.puts[i]);
      assert s.ongoing == None;
      assert Closed(s, s.puts[i].channel);
      assert CanMove(s, i);
    }
  }

  lemma {:induction false} MoversArePuts(s: State)
    ensures forall i: nat :: CanMove(s, i) ==> i < |s.puts|
  {
  }

  // ---------------------------------------------------------------------------------------------
  // Whole runs

  /** The state after the given puts have moved, in this order; nothing if one of them could not. */
  ghost function Run(s: State, moves: seq<nat>, size: nat): Option<State>
    decreases |moves|
  {
    if moves == [] then Some(s)
    else if !CanMove(s, moves[0]) || !PutsOk(s) || !OngoingOk(s) || Move(s, moves[0], size).Lagged? then None
    else Run(Move(s, moves[0], size).state, moves[1..], size)
  }

  function Count(puts: seq<Put>, phase: Phase): nat {
    if puts == [] then 0 else (if puts[0].phase == phase then 1 else 0) + Count(puts[1..], phase)
  }

  /** A run that only makes possible moves never goes wrong, and each move takes it nearer to its end. */
  lemma {:induction false} RunsKeepInv(s: State, moves: seq<nat>, winner: Option<nat>, file: File, written: nat, size: nat)
    returns (last: Option<nat>)
    requires Inv(s, winner, file, written, size) && Run(s, moves, size).Some?
    ensures Inv(Run(s, moves, size).value, last, file, written, size)
    ensures |Run(s, moves, size).value.puts| == |s.puts|
    ensures |moves| + Left(Run(s, moves, size).value.puts) <= Left(s.puts)
    decreases |moves|
  {
    last := winner;
    if moves != [] {
      MoveKeepsInv(s, moves[0], winner, file, written, size);
      MoveShrinks(s, moves[0], winner, file, written, size);
      var next := NextWinner(s, moves[0], winner);
      var t := Move(s, moves[0], size).state;
      MoveRank(s, moves[0], winner, file, written, size);
      hide Inv, Move, CanMove;
      last := RunsKeepInv(t, moves[1..], next, file, written, size);
    }
  }

  /** A run can only end because a put that cannot move was picked, never by a panic. */
  lemma {:induction false} RunsExtend(s: State, moves: seq<nat>, i: nat, winner: Option<nat>, file: File, written: nat, size: nat)
    requires Inv(s, winner, file, written, size) && Run(s, moves, size).Some?
    ensures CanMove(Run(s, moves, size).value, i) ==> Run(s, moves + [i], size).Some?
    decreases |moves|
  {
    if moves == [] {
      assert moves + [i] == [i] && [i][1..] == [];
      if CanMove(s, i) {
        MoveKeepsInv(s, i, winner, file, written, size);
      }
    } else {
      assert (moves + [i])[1..] == moves[1..] + [i];
      MoveKeepsInv(s, moves[0], winner, file, written, size);
      hide Inv, Move, CanMove;
      RunsExtend(Move(s, moves[0], size).state, moves[1..], i, NextWinner(s, moves[0], winner), file, written, size);
    }
  }

  lemma {:induction false} CountOne(puts: seq<Put>, winner: Option<nat>)
    requires forall i :: 0 <= i < |puts| ==> Finished(puts[i]) && (puts[i].phase == NewBlock <==> winner == Some(i))
    requires winner.Some? ==> winner.value < |puts|
    ensures Count(puts, NewBlock) == if winner.Some? then 1 else 0
    ensures Count(puts, NewBlock) + Count(puts, Existed) == |puts|
    decreases puts
  {
    if puts != [] {
      var next := if winner.Some? && winner.value > 0 then Some(winner.value - 1) else None;
      assert forall i :: 0 <= i < |puts| - 1 ==> puts[1..][i] == puts[i + 1];
      CountOne(puts[1..], next);
    }
  }

  lemma {:induction false} InitialLeft(n: nat)
    ensures Left(NewPuts(n)) == 7 * n
  {
    if n > 0 {
      assert NewPuts(n)[1..] == NewPuts(n - 1);
      InitialLeft(n - 1);
    }
  }

  /** The put found the block existing and waited on this channel. */
  predicate Returned(p: Put, channel: nat) { p.phase == Existed && p.channel == channel }

  /** What the invariant says of messages, bytes and early returns. */
  lemma {:induction false} InvSays(s: State, winner: Option<nat>, file: File, written: nat, size: nat)
    requires Inv(s, winner, file, written, size)
    ensures forall c :: 0 <= c < |s.messages| ==> s.messages[c] <= 1
    ensures s.written == written || (file == Absent && s.written == written + size)
    ensures forall i, j :: 0 <= i < |s.puts| && 0 <= j < |s.puts| && IsWinner(s.puts[i]) && Returned(s.puts[j], s.puts[i].channel)
                           ==> HasRenamed(s.puts[i]) && s.file == Complete
  {
    hide PutsOk, OngoingOk;
    forall i, j | 0 <= i < |s.puts| && 0 <= j < |s.puts| && IsWinner(s.puts[i]) && Returned(s.puts[j], s.puts[i].channel)
      ensures HasRenamed(s.puts[i]) && s.file == Complete
    {
      assert winner == Some(i) && HasLost(s.puts[j]);
    }
  }

  /** In every schedule, at every moment: at most 7 moves per put so far, at most one message on any
      channel, the bytes counted at most once, and whoever shares the winner's channel has not
      returned before the rename; while a put has not returned, some put can move. */
  lemma {:induction false} EverySchedule(n: nat, file: File, written: nat, size: nat, moves: seq<nat>)
    requires Run(Initial(n, file, written), moves, size).Some?
    ensures var s := Run(Initial(n, file, written), moves, size).value;
            && |s.puts| == n && |moves| <= 7 * n
            && (forall c :: 0 <= c < |s.messages| ==> s.messages[c] <= 1)
            && (s.written == written || (file == Absent && s.written == written + size))
            && (forall i, j :: 0 <= i < n && 0 <= j < n && IsWinner(s.puts[i]) && Returned(s.puts[j], s.puts[i].channel) ==>
                  HasRenamed(s.puts[i]) && s.file == Complete)
            && ((forall i :: 0 <= i < n ==> !CanMove(s, i)) ==> forall i :: 0 <= i < n ==> Finished(s.puts[i]))
  {
    hide Run, Inv, CanMove, IsWinner, Returned, HasRenamed;
    InitialInv(n, file, written, size);
    InitialLeft(n);
    var s0 := Initial(n, file, written);
    var winner := RunsKeepInv(s0, moves, None, file, written, size);
    var s := Run(s0, moves, size).value;
    InvSays(s, winner, file, written, size);
    if i :| 0 <= i < |s.puts| && !Finished(s.puts[i]) {
      NeverStuck(s, winner, file, written, size);
      MoversArePuts(s);
    }
  }

  /** When all puts have returned: exactly one wrote a new block if the file was absent, none otherwise,
      all others found it existing, and the bytes were counted exactly then. */
  lemma {:induction false} ExactlyOneNewBlock(n: nat, file: File, written: nat, size: nat, moves: seq<nat>)
    requires n > 0 && Run(Initial(n, file, written), moves, size).Some?
    requires var s := Run(Initial(n, file, written), moves, size).value;
             forall i :: 0 <= i < |s.puts| ==> Finished(s.puts[i])
    ensures var s := Run(Initial(n, file, written), moves, size).value;
            && Count(s.puts, NewBlock) == (if file == Absent then 1 else 0)
            && Count(s.puts, NewBlock) + Count(s.puts, Existed) == n
            && s.written == (if file == Absent then written + size else written)
            && s.file == (if file == Absent then Complete else file)
            && s.ongoing == None
  {
    InitialInv(n, file, written, size);
    var s0 := Initial(n, file, written);
    hide Run;
    var winner := RunsKeepInv(s0, moves, None, file, written, size);
    var s := Run(s0, moves, size).value;
    forall i | 0 <= i < |s.puts|
      ensures s.puts[i].phase == NewBlock <==> winner == Some(i)
    {
      assert IsWinner(s.puts[i]) <==> winner == Some(i);
    }
    CountOne(s.puts, winner);
    if winner.None? {
      assert HasLost(s.puts[0]);
    }
  }

  // ---------------------------------------------------------------------------------------------
  // A put on another channel than the winner's

  lemma {:induction false} RunThen(s: State, moves: seq<nat>, i: nat, size: nat)
    requires Run(s, moves, size).Some?
    requires CanMove(Run(s, moves, size).value, i) && PutsOk(Run(s, moves, size).value) && OngoingOk(Run(s, moves, size).value)
    requires Move(Run(s, moves, size).value, i, size).To?
    ensures Run(s, moves + [i], size) == Some(Move(Run(s, moves, size).value, i, size).state)
    decreases |moves|
  {
    if moves == [] {
      assert moves + [i] == [i] && [i][1..] == [];
    } else {
      assert (moves + [i])[1..] == moves[1..] + [i];
      var next := Move(s, moves[0], size).state;
      hide CanMove, PutsOk, OngoingOk, Move;
      RunThen(next, moves[1..], i, size);
    }
  }

  /** One more move of a schedule of three puts of an absent block. */
  lemma {:induction false} ReachesNext(moves: seq<nat>, s: State, winner: Option<nat>, written: nat, size: nat, i: nat, t: State)
    requires Run(Initial(3, Absent, written), moves, size) == Some(s) && Inv(s, winner, Absent, written, size)
    requires CanMove(s, i) && Move(s, i, size) == To(t)
    ensures Run(Initial(3, Absent, written), moves + [i], size) == Some(t)
    ensures Inv(t, NextWinner(s, i, winner), Absent, written, size)
  {
    MoveKeepsInv(s, i, winner, Absent, written, size);
    hide Move, NextWinner, FileOk, MessagesOk, LosersOk, OneWinner, CanMove, Run, PutsOk, OngoingOk;
    RunThen(Initial(3, Absent, written), moves, i, size);
  }

  function Three(a: Put, b: Put, c: Put, ongoing: Option<nat>, messages: seq<nat>, file: File, written: nat): State {
    State([a, b, c], ongoing, messages, file, written)
  }

  lemma {:induction false} ThreeMoves(a: Put, b: Put, c: Put, p: Put)
    ensures [a, b, c][0 := p] == [p, b, c] && [a, b, c][1 := p] == [a, p, c] && [a, b, c][2 := p] == [a, b, p]
  {
  }

  lemma {:induction false} ThreeClosed(s: State, channel: nat)
    requires |s.puts| == 3 && s.ongoing.None?
    requires !HoldsSender(s.puts[2]) && s.puts[0].channel != channel && s.puts[1].channel != channel
    ensures Closed(s, channel)
  {
  }

  /** The first put creates the file. */
  lemma {:induction false} FirstCreates(written: nat, size: nat) returns (moves: seq<nat>)
    ensures var s := Three(Put(Won, 0, 0), Put(Joined, 0, 0), Put(Begun, 0, 0), Some(0), [0], Created, written);
            Run(Initial(3, Absent, written), moves, size) == Some(s) && Inv(s, Some(0), Absent, written, size)
  {
    var b, j, w := Put(Begun, 0, 0), Put(Joined, 0, 0), Put(Won, 0, 0);
    InitialInv(3, Absent, written, size);
    var s0, s1 := Three(b, b, b, None, [], Absent, written), Three(j, b, b, Some(0), [0], Absent, written);
    var s2 := Three(j, j, b, Some(0), [0], Absent, written);
    assert Initial(3, Absent, written).puts == s0.puts;
    assert Run(Initial(3, Absent, written), [], size) == Some(s0);
    hide Inv, Run, Initial, Closed;
    assert [] + [0] == [0];
    ThreeMoves(b, b, b, j);
    ReachesNext([], s0, None, written, size, 0, s1);
    ThreeMoves(j, b, b, j);
    ReachesNext([] + [0], s1, None, written, size, 1, s2);
    ThreeMoves(j, j, b, w);
    ReachesNext([] + [0] + [1], s2, None, written, size, 0, Three(w, j, b, Some(0), [0], Created, written));
    moves := [] + [0] + [1] + [0];
  }

  /** The second loses and removes the key. */
  lemma {:induction false} SecondRemovesKey(written: nat, size: nat) returns (moves: seq<nat>)
    ensures var s := Three(Put(Won, 0, 0), Put(LostFree, 0, 0), Put(Begun, 0, 0), None, [0], Created, written);
            Run(Initial(3, Absent, written), moves, size) == Some(s) && Inv(s, Some(0), Absent, written, size)
  {
    hide Inv, Run, Initial, Closed;
    var before := FirstCreates(written, size);
    var b, j, w, l, f := Put(Begun, 0, 0), Put(Joined, 0, 0), Put(Won, 0, 0), Put(Lost, 0, 0), Put(LostFree, 0, 0);
    var s1, s2 := Three(w, j, b, Some(0), [0], Created, written), Three(w, l, b, Some(0), [0], Created, written);
    ThreeMoves(w, j, b, l);
    ReachesNext(before, s1, Some(0), written, size, 1, s2);
    ThreeMoves(w, l, b, f);
    ReachesNext(before + [1], s2, Some(0), written, size, 1, Three(w, f, b, None, [0], Created, written));
    moves := before + [1] + [1];
  }

  /** The third opens a channel of its own and loses too. */
  lemma {:induction false} ThirdLoses(written: nat, size: nat) returns (moves: seq<nat>)
    ensures var s := Three(Put(Won, 0, 0), Put(LostFree, 0, 0), Put(LostFree, 1, 0), None, [0, 0], Created, written);
            Run(Initial(3, Absent, written), moves, size) == Some(s) && Inv(s, Some(0), Absent, written, size)
  {
    hide Inv, Run, Initial, Closed;
    var before := SecondRemovesKey(written, size);
    var b, w, f := Put(Begun, 0, 0), Put(Won, 0, 0), Put(LostFree, 0, 0);
    var j, l, g := Put(Joined, 1, 0), Put(Lost, 1, 0), Put(LostFree, 1, 0);
    var s0, s1 := Three(w, f, b, None, [0], Created, written), Three(w, f, j, Some(1), [0, 0], Created, written);
    var s2 := Three(w, f, l, Some(1), [0, 0], Created, written);
    ThreeMoves(w, f, b, j);
    assert [0] + [0] == [0, 0];
    ReachesNext(before, s0, Some(0), written, size, 2, s1);
    ThreeMoves(w, f, j, l);
    ReachesNext(before + [2], s1, Some(0), written, size, 2, s2);
    ThreeMoves(w, f, l, g);
    ReachesNext(before + [2] + [2], s2, Some(0), written, size, 2, Three(w, f, g, None, [0, 0], Created, written));
    moves := before + [2] + [2] + [2];
  }

  /** It drops its sender, the last one of its channel, and waits. */
  lemma {:induction false} ThirdWaits(written: nat, size: nat) returns (moves: seq<nat>)
    ensures var s := Three(Put(Won, 0, 0), Put(LostFree, 0, 0), Put(Waiting, 1, 0), None, [0, 0], Created, written);
            Run(Initial(3, Absent, written), moves, size) == Some(s) && Inv(s, Some(0), Absent, written, size)
  {
    hide Run, Inv, Closed, Initial;
    var before := ThirdLoses(written, size);
    var w, f, g, x := Put(Won, 0, 0), Put(LostFree, 0, 0), Put(LostFree, 1, 0), Put(Waiting, 1, 0);
    var s0, s1 := Three(w, f, g, None, [0, 0], Created, written), Three(w, f, x, None, [0, 0], Created, written);
    ThreeMoves(w, f, g, x);
    ReachesNext(before, s0, Some(0), written, size, 2, s1);
    moves := before + [2];
  }

  /** A put on another channel than the winner's can return before the block is in place: the second
      put removed the key, so nobody will send on the third one's channel. */
  lemma {:induction false} EarlyReturnOnAnotherChannel(written: nat, size: nat) returns (moves: seq<nat>, s: State)
    ensures Run(Initial(3, Absent, written), moves, size) == Some(s) && |s.puts| == 3
    ensures s.puts[0].phase == Won && s.file == Created
    ensures s.puts[2].phase == Existed && s.puts[2].channel != s.puts[0].channel
  {
    hide Run, Inv, Closed, Initial;
    var before := ThirdWaits(written, size);
    var w, f, x, e := Put(Won, 0, 0), Put(LostFree, 0, 0), Put(Waiting, 1, 0), Put(Existed, 1, 0);
    var s1 := Three(w, f, x, None, [0, 0], Created, written);
    s := Three(w, f, e, None, [0, 0], Created, written);
    ThreeClosed(s1, 1);
    ThreeMoves(w, f, x, e);
    ReachesNext(before, s1, Some(0), written, size, 2, s);
    moves := before + [2];
  }
}
