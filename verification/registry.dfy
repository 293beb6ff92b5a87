/** The connection list of the analyzer hub (`WebSocketManager` in
    app/websocket_manager.py): registration, removal and fan-out broadcast. */
module Registry {

  /** An analyzer connection; only its identity matters. */
  type Conn = nat

  /** `connect`: appends the connection, with no de-duplication. */
  function Connect(conns: seq<Conn>, c: Conn): (r: seq<Conn>)
    ensures |r| == |conns| + 1 && r[..|conns|] == conns && r[|conns|] == c
    ensures multiset(r) == multiset(conns) + multiset{c}
  {
    conns + [c]
  }

  /** `disconnect`: removes the first occurrence of `c` if there is one, else changes nothing. */
  function Disconnect(conns: seq<Conn>, c: Conn): (r: seq<Conn>)
    ensures c !in conns ==> r == conns
    ensures c in conns ==> |r| == |conns| - 1 && multiset(r) == multiset(conns) - multiset{c}
    ensures forall x :: x in r ==> x in conns
    decreases |conns|
  {
    if |conns| == 0 then []
    else
      assert conns == [conns[0]] + conns[1..];
      if conns[0] == c then conns[1..]
      else [conns[0]] + Disconnect(conns[1..], c)
  }

  /** Disconnecting a connection that was just registered restores the list. */
  lemma {:induction false} DisconnectUndoesConnect(conns: seq<Conn>, c: Conn)
    requires c !in conns
    ensures Disconnect(Connect(conns, c), c) == conns
    decreases |conns|
  {
    if |conns| > 0 {
      assert Connect(conns, c)[1..] == Connect(conns[1..], c);
      DisconnectUndoesConnect(conns[1..], c);
    }
  }

  /** The connections whose send failed, in list order (the `disconnected` list). */
  function Failures(conns: seq<Conn>, failed: set<Conn>): (r: seq<Conn>)
    ensures forall x :: x in r ==> x in failed
    decreases |conns|
  {
    if |conns| == 0 then []
    else if conns[0] in failed then [conns[0]] + Failures(conns[1..], failed)
    else Failures(conns[1..], failed)
  }

  /** The connections whose send succeeded, in list order. */
  function Survivors(conns: seq<Conn>, failed: set<Conn>): (r: seq<Conn>)
    ensures forall x :: x in r <==> x in conns && x !in failed
    decreases |conns|
  {
    if |conns| == 0 then []
    else if conns[0] in failed then Survivors(conns[1..], failed)
    else [conns[0]] + Survivors(conns[1..], failed)
  }

  /** The clean-up loop: `disconnect` each failed connection in turn. */
  function DisconnectAll(conns: seq<Conn>, gone: seq<Conn>): seq<Conn>
    decreases |gone|
  {
    if |gone| == 0 then conns else DisconnectAll(Disconnect(conns, gone[0]), gone[1..])
  }

  /** What one `broadcast` does: every connection is attempted in order, the
      message reaches the ones not in `failed`, and the failed ones are then
      disconnected. No send failure escapes. */
  datatype BroadcastOutcome = BroadcastOutcome(attempted: seq<Conn>, delivered: seq<Conn>, remaining: seq<Conn>)

  function Broadcast(conns: seq<Conn>, failed: set<Conn>): BroadcastOutcome {
    BroadcastOutcome(conns, Survivors(conns, failed), DisconnectAll(conns, Failures(conns, failed)))
  }

  lemma {:induction false} DisconnectPastHead(x: Conn, rest: seq<Conn>, gone: seq<Conn>)
    requires x !in gone
    ensures DisconnectAll([x] + rest, gone) == [x] + DisconnectAll(rest, gone)
    decreases |gone|
  {
    if |gone| > 0 {
      assert Disconnect([x] + rest, gone[0]) == [x] + Disconnect(rest, gone[0]);
      DisconnectPastHead(x, Disconnect(rest, gone[0]), gone[1..]);
    }
  }

  lemma {:induction false} PruneLeavesSurvivors(conns: seq<Conn>, failed: set<Conn>)
    ensures DisconnectAll(conns, Failures(conns, failed)) == Survivors(conns, failed)
    decreases |conns|
  {
    if |conns| > 0 {
      PruneLeavesSurvivors(conns[1..], failed);
      if conns[0] in failed {
        assert Disconnect(conns, conns[0]) == conns[1..];
      } else {
        assert conns == [conns[0]] + conns[1..];
        DisconnectPastHead(conns[0], conns[1..], Failures(conns[1..], failed));
      }
    }
  }

  /** After a broadcast the list is the old list minus exactly the failed
      connections, survivors keeping their relative order; those are also the
      connections the message reached. */
  lemma BroadcastPrunesFailed(conns: seq<Conn>, failed: set<Conn>)
    ensures Broadcast(conns, failed).attempted == conns
    ensures Broadcast(conns, failed).remaining == Broadcast(conns, failed).delivered
    ensures forall x :: x in Broadcast(conns, failed).remaining <==> x in conns && x !in failed
  {
    PruneLeavesSurvivors(conns, failed);
  }

  /** No connection occurs twice. */
  predicate Distinct(s: seq<Conn>) {
    forall i, j :: 0 <= i < j < |s| ==> s[i] != s[j]
  }

  /** A list without repeats stays without repeats when filtered. */
  lemma {:induction false} SurvivorsDistinct(conns: seq<Conn>, failed: set<Conn>)
    requires Distinct(conns)
    ensures Distinct(Survivors(conns, failed))
    decreases |conns|
  {
    if |conns| > 0 {
      SurvivorsDistinct(conns[1..], failed);
      assert conns[0] !in conns[1..];
      var rest := Survivors(conns[1..], failed);
      if conns[0] !in failed {
        var r := [conns[0]] + rest;
        forall j | 0 < j < |r|
          ensures r[0] != r[j]
        {
          assert r[j] == rest[j - 1] && rest[j - 1] in rest;
        }
        forall i, j | 0 < i < j < |r|
          ensures r[i] != r[j]
        {
          assert r[i] == rest[i - 1] && r[j] == rest[j - 1];
          assert rest[i - 1] != rest[j - 1];
        }
      }
    }
  }

  /** Removing a connection from a list without repeats removes it entirely
      and keeps the list without repeats. */
  lemma {:induction false} DisconnectDistinct(conns: seq<Conn>, c: Conn)
    requires Distinct(conns)
    ensures Distinct(Disconnect(conns, c)) && c !in Disconnect(conns, c)
    decreases |conns|
  {
    if |conns| > 0 {
      assert conns[0] !in conns[1..];
      if conns[0] != c {
        var rest := conns[1..];
        assert Distinct(rest) by {
          forall i, j | 0 <= i < j < |rest| ensures rest[i] != rest[j] {
            assert rest[i] == conns[i + 1] && rest[j] == conns[j + 1];
          }
        }
        DisconnectDistinct(rest, c);
        var d := Disconnect(rest, c);
        var r := [conns[0]] + d;
        forall i, j | 0 <= i < j < |r| ensures r[i] != r[j] {
          if i == 0 {
            assert r[j] == d[j - 1] && d[j - 1] in d;
          } else {
            assert r[i] == d[i - 1] && r[j] == d[j - 1];
          }
        }
      }
    }
  }
}
