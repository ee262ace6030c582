/** The set of running downloads, over any interleaving of requests at their awaits. */
module ActiveDownloads {
  /** A request whose handler has not reached its synchronous part yet. */
  datatype Pending = Pending(deviceKey: string, gone: bool)

  /** `leaked` are the keys added for a connection that had already closed: nothing will remove them. */
  datatype State = State(active: set<string>, pending: map<nat, Pending>, streaming: map<nat, string>, leaked: set<string>)

  const IDLE := State({}, map[], map[], {})

  /** What the checks before and the range decision after the busy check make of a request. */
  datatype Request = Refused | NoSuchRange | Servable

  datatype Step =
    | Arrive(connection: nat, deviceKey: string)
    | Serve(connection: nat, request: Request)
    | Close(connection: nat)

  datatype Status = Streamed | Busy | RangeNotSatisfiable | NotServed

  predicate Known(s: State, c: nat) {
    c in s.pending || c in s.streaming
  }

  /** What the synchronous part answers. */
  function Answer(s: State, c: nat, request: Request): Status {
    if c !in s.pending || request == Refused then NotServed
    else if s.pending[c].deviceKey in s.active then Busy
    else if request == NoSuchRange then RangeNotSatisfiable
    else Streamed
  }

  function Apply(s: State, step: Step): State {
    match step
    case Arrive(c, key) =>
      if Known(s, c) then s else s.(pending := s.pending[c := Pending(key, false)])
    case Serve(c, request) =>
      if c !in s.pending then s else
      var p, rest := s.pending[c], s.pending - {c};
      if Answer(s, c, request) != Streamed then s.(pending := rest)
      else if p.gone then s.(pending := rest, active := s.active + {p.deviceKey}, leaked := s.leaked + {p.deviceKey})
      else s.(pending := rest, active := s.active + {p.deviceKey}, streaming := s.streaming[c := p.deviceKey])
    case Close(c) =>
      if c in s.pending then s.(pending := s.pending[c := s.pending[c].(gone := true)])
      else if c in s.streaming then s.(active := s.active - {s.streaming[c]}, streaming := s.streaming - {c})
      else s
  }

  /** The module-level set and the connections around it. */
  class Server {
    var active: set<string>
    var pending: map<nat, Pending>
    var streaming: map<nat, string>
    ghost var leaked: set<string>

    ghost function Now(): State
      reads this
    {
      State(active, pending, streaming, leaked)
    }

    constructor ()
      ensures Now() == IDLE
    {
      active, pending, streaming, leaked := {}, map[], map[], {};
    }

    method Accept(connection: nat, deviceKey: string)
      modifies this
      ensures Now() == Apply(old(Now()), Arrive(connection, deviceKey))
    {
      if connection !in pending && connection !in streaming {
        pending := pending[connection := Pending(deviceKey, false)];
      }
    }

    /** The code after the last await: no other request runs in between. */
    method Download(connection: nat, request: Request) returns (status: Status)
      modifies this
      ensures Now() == Apply(old(Now()), Serve(connection, request))
      ensures status == Answer(old(Now()), connection, request)
    {
      if connection !in pending {
        return NotServed;
      }
      var p := pending[connection];
      pending := pending - {connection};
      if request == Refused {
        return NotServed;
      }
      if p.deviceKey in active {
        return Busy;
      }
      if request == NoSuchRange {
        return RangeNotSatisfiable;
      }
      active := active + {p.deviceKey};
      if p.gone {
        leaked := leaked + {p.deviceKey};
      } else {
        streaming := streaming[connection := p.deviceKey];
      }
      status := Streamed;
    }

    /** The connection closes: finished or broken off; only a stream's listener takes its key out. */
    method OnClose(connection: nat)
      modifies this
      ensures Now() == Apply(old(Now()), Close(connection))
    {
      if connection in pending {
        pending := pending[connection := pending[connection].(gone := true)];
      } else if connection in streaming {
        active := active - {streaming[connection]};
        streaming := streaming - {connection};
      }
    }
  }

  // ── every interleaving ─────────────────────────────────────────────────

  function Run(s: State, steps: seq<Step>): State {
    if steps == [] then s else Apply(Run(s, steps[..|steps| - 1]), steps[|steps| - 1])
  }

  ghost predicate Streams(s: State, key: string) {
    exists c :: c in s.streaming && s.streaming[c] == key
  }

  /** Two open streams never serve one device. */
  ghost predicate OnePerDevice(s: State) {
    forall c, d :: c in s.streaming && d in s.streaming && s.streaming[c] == s.streaming[d] ==> c == d
  }

  /** The set holds the keys of the open streams and the leaked ones, and no key is both. */
  ghost predicate Accounted(s: State) {
    (forall key :: key in s.active <==> Streams(s, key) || key in s.leaked) &&
    (forall key :: key in s.leaked ==> !Streams(s, key)) &&
    OnePerDevice(s) && forall c :: c in s.pending ==> c !in s.streaming
  }

  lemma ServeAccounts(s: State, c: nat, request: Request)
    requires Accounted(s)
    ensures Accounted(Apply(s, Serve(c, request)))
  {
    var s' := Apply(s, Serve(c, request));
    if c in s.pending && Answer(s, c, request) == Streamed {
      var p := s.pending[c];
      assert !Streams(s, p.deviceKey) && p.deviceKey !in s.leaked;
      forall key
        ensures Streams(s', key) <==> Streams(s, key) || (!p.gone && key == p.deviceKey)
      {
        if Streams(s, key) {
          var d :| d in s.streaming && s.streaming[d] == key;
          assert d in s'.streaming && s'.streaming[d] == key;
        }
        if !p.gone && key == p.deviceKey {
          assert c in s'.streaming && s'.streaming[c] == key;
        }
      }
    } else {
      assert forall key :: Streams(s', key) <==> Streams(s, key);
    }
  }

  lemma CloseAccounts(s: State, c: nat)
    requires Accounted(s)
    ensures Accounted(Apply(s, Close(c)))
  {
    var s' := Apply(s, Close(c));
    forall key
      ensures Streams(s', key) <==> Streams(s, key) && !(c in s.streaming && c !in s.pending && key == s.streaming[c])
    {
      if Streams(s, key) && !(c in s.streaming && key == s.streaming[c]) {
        var d :| d in s.streaming && s.streaming[d] == key;
        assert d in s'.streaming && s'.streaming[d] == key;
      }
    }
    if c in s.streaming && c !in s.pending {
      assert Streams(s, s.streaming[c]);
    }
  }

  lemma StepAccounts(s: State, step: Step)
    requires Accounted(s)
    ensures Accounted(Apply(s, step))
  {
    match step {
      case Arrive(c, key) =>
        assert forall k :: Streams(Apply(s, step), k) <==> Streams(s, k);
      case Serve(c, request) => ServeAccounts(s, c, request);
      case Close(c) => CloseAccounts(s, c);
    }
  }

  /** Whatever the interleaving, the set is the keys of the open streams and the leaked keys. */
  lemma {:induction false} AlwaysAccounted(steps: seq<Step>)
    ensures Accounted(Run(IDLE, steps))
  {
    if steps == [] {
      assert forall key :: !Streams(IDLE, key);
    } else {
      AlwaysAccounted(steps[..|steps| - 1]);
      StepAccounts(Run(IDLE, steps[..|steps| - 1]), steps[|steps| - 1]);
    }
  }

  /** A download starts for a connection that has already closed. */
  predicate StartsGone(s: State, step: Step) {
    step.Serve? && Answer(s, step.connection, step.request) == Streamed && s.pending[step.connection].gone
  }

  ghost predicate ServesTheGone(steps: seq<Step>, i: nat) {
    i < |steps| && StartsGone(Run(IDLE, steps[..i]), steps[i])
  }

  lemma StepLeaks(s: State, step: Step)
    ensures Apply(s, step).leaked != {} <==> s.leaked != {} || StartsGone(s, step)
  {
    if StartsGone(s, step) {
      assert s.pending[step.connection].deviceKey in Apply(s, step).leaked;
    }
  }

  lemma SamePast(steps: seq<Step>, i: nat)
    requires i < |steps|
    ensures ServesTheGone(steps, i) <==>
            if i < |steps| - 1 then ServesTheGone(steps[..|steps| - 1], i)
            else StartsGone(Run(IDLE, steps[..|steps| - 1]), steps[|steps| - 1])
  {
    if i < |steps| - 1 {
      assert steps[..i] == steps[..|steps| - 1][..i];
    }
  }

  lemma {:induction false} LeaksIff(steps: seq<Step>)
    ensures Run(IDLE, steps).leaked != {} <==> exists i :: ServesTheGone(steps, i)
  {
    if steps != [] {
      var c, last := steps[..|steps| - 1], |steps| - 1;
      LeaksIff(c);
      StepLeaks(Run(IDLE, c), steps[last]);
      SamePast(steps, last);
      if exists i :: ServesTheGone(c, i) {
        var i :| ServesTheGone(c, i);
        SamePast(steps, i);
      }
      if exists i :: ServesTheGone(steps, i) {
        var i :| ServesTheGone(steps, i);
        SamePast(steps, i);
      }
    }
  }

  /** The set equals the keys of the open streams exactly as long as no download started after its connection closed. */
  lemma ActiveIsOpenIff(steps: seq<Step>)
    ensures (forall key :: key in Run(IDLE, steps).active <==> Streams(Run(IDLE, steps), key)) <==>
            !exists i :: ServesTheGone(steps, i)
    ensures OnePerDevice(Run(IDLE, steps))
  {
    AlwaysAccounted(steps);
    LeaksIff(steps);
    var s := Run(IDLE, steps);
    if s.leaked != {} {
      var key :| key in s.leaked;
      assert key in s.active && !Streams(s, key);
    }
  }

  /** A leaked key stays: from then on that device is answered 429, whatever happens. */
  lemma {:induction false} LeakedIsRefused(s: State, steps: seq<Step>, key: string, c: nat)
    requires Accounted(s) && key in s.leaked
    ensures Accounted(Run(s, steps)) && key in Run(s, steps).leaked
    ensures var t := Run(s, steps);
            c in t.pending && t.pending[c].deviceKey == key ==>
              forall request :: request != Refused ==> Answer(t, c, request) == Busy
  {
    if steps != [] {
      LeakedIsRefused(s, steps[..|steps| - 1], key, c);
      StepAccounts(Run(s, steps[..|steps| - 1]), steps[|steps| - 1]);
    }
  }

  /** Three steps suffice: a request arrives, its connection closes, its handler starts the download. */
  lemma HangUpLeaks(key: string)
    ensures var s := Run(IDLE, [Arrive(1, key), Close(1), Serve(1, Servable)]);
            s.active == {key} && s.streaming == map[] && s.leaked == {key}
  {
    var steps := [Arrive(1, key), Close(1), Serve(1, Servable)];
    assert steps[..2][..1][..0] == [] && steps[..2] == [Arrive(1, key), Close(1)] && steps[..2][..1] == [Arrive(1, key)];
    var s1 := Apply(IDLE, Arrive(1, key));
    assert Run(IDLE, steps[..2][..1]) == s1;
    var s2 := Apply(s1, Close(1));
    assert Run(IDLE, steps[..2]) == s2;
    assert s2.pending[1] == Pending(key, true);
    assert Run(IDLE, steps) == Apply(s2, Serve(1, Servable));
  }

  /**
   * What a request is answered at any point: busy exactly while its device has an open stream or a leaked key, else
   * 416 for a range that names nothing, else the stream.
   */
  lemma AnswerIs(steps: seq<Step>, c: nat)
    requires c in Run(IDLE, steps).pending
    ensures var s, key := Run(IDLE, steps), Run(IDLE, steps).pending[c].deviceKey;
            Answer(s, c, Refused) == NotServed &&
            (Answer(s, c, Servable) == Busy <==> Streams(s, key) || key in s.leaked) &&
            (Answer(s, c, NoSuchRange) == Busy <==> Streams(s, key) || key in s.leaked) &&
            (Answer(s, c, Servable) != Busy ==> Answer(s, c, Servable) == Streamed) &&
            (Answer(s, c, NoSuchRange) != Busy ==> Answer(s, c, NoSuchRange) == RangeNotSatisfiable)
  {
    AlwaysAccounted(steps);
  }

  /** A stream that starts on an open connection holds its device's key, and its close gives exactly that key back. */
  lemma StreamAndClose(steps: seq<Step>, c: nat)
    requires c in Run(IDLE, steps).pending && !Run(IDLE, steps).pending[c].gone
    requires Answer(Run(IDLE, steps), c, Servable) == Streamed
    ensures var s := Run(IDLE, steps);
            var during := Apply(s, Serve(c, Servable));
            var after := Apply(during, Close(c));
            during.active == s.active + {s.pending[c].deviceKey} && s.pending[c].deviceKey !in s.active &&
            during.streaming == s.streaming[c := s.pending[c].deviceKey] && during.leaked == s.leaked &&
            after.active == s.active && after.streaming == s.streaming && after.leaked == s.leaked &&
            after.pending == s.pending - {c}
  {
    AlwaysAccounted(steps);
    var s := Run(IDLE, steps);
    var after := Apply(Apply(s, Serve(c, Servable)), Close(c));
    assert after.active == s.active;
    assert after.streaming == s.streaming;
  }
}
