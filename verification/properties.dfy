/** Properties of the POP3 session that relate several steps, or a step to
    the backend answers behind it. */
module Pop3Properties {
  import opened Py
  import opened Wire
  import opened Mailbox
  import opened Pop3

  predicate IsCommand(line: string, command: string) {
    line != "" && Parse(line).command == command
  }

  predicate NoPass(lines: seq<string>) {
    forall i :: 0 <= i < |lines| ==> !IsCommand(lines[i], "PASS")
  }

  /** Once the loop has closed or crashed, no later line is read. */
  lemma {:induction false} StepsStopAtEnd(s: Session, lines: seq<string>, backends: seq<Backend>,
                                          more: seq<string>, moreBackends: seq<Backend>)
    requires |backends| == |lines| && |moreBackends| == |more|
    requires !Steps(s, lines, backends).status.Running?
    ensures Steps(s, lines + more, backends + moreBackends) == Steps(s, lines, backends)
    decreases |lines|
  {
    var all, allBackends := lines + more, backends + moreBackends;
    assert all[0] == lines[0] && allBackends[0] == backends[0];
    assert all[1..] == lines[1..] + more;
    assert allBackends[1..] == backends[1..] + moreBackends;
    var r := Step(s, lines[0], backends[0]);
    if r.status.Running? {
      StepsStopAtEnd(r.session, lines[1..], backends[1..], more, moreBackends);
      assert Steps(s, all, allBackends) == Steps(s, lines, backends);
    } else {
      assert Steps(s, all, allBackends) == Transcript(r.session, r.output, r.actions, r.status);
    }
  }

  /** QUIT answers +OK and ends the loop; nothing after it is read. */
  lemma QuitEndsSession(s: Session, quit: string, rest: seq<string>, backends: seq<Backend>)
    requires IsCommand(quit, "QUIT") && |backends| == |rest| + 1
    ensures Steps(s, [quit] + rest, backends) == Transcript(s, [Write("+OK")], [], Closed)
  {
    assert ([quit] + rest)[0] == quit;
  }

  /** USER records the name, answers +OK, and leaves any handle in place. */
  lemma UserKeepsHandle(s: Session, line: string, backend: Backend)
    requires IsCommand(line, "USER") && |Parse(line).params| > 0
    ensures Step(s, line, backend) ==
              StepResult(s.(username := Some(Parse(line).params[0])), [Write("+OK")], [], Running)
  {
  }

  /** USER with no name raises on `params[0]`, outside any `try`. */
  lemma UserWithoutNameCrashes(s: Session, line: string, backend: Backend)
    requires IsCommand(line, "USER") && |Parse(line).params| == 0
    ensures Step(s, line, backend) == StepResult(s, [], [], Crashed(MissingParameter))
  {
  }

  /** A PASS line does exactly what `Pass` says, nothing more. */
  lemma StepPass(s: Session, line: string, backend: Backend)
    requires IsCommand(line, "PASS")
    ensures Step(s, line, backend) == Pass(s, Parse(line).params, backend)
  {
  }

  /** A failed PASS keeps the username, so a second PASS retries without a
      new USER, and keeps whatever handle an earlier PASS opened. */
  lemma {:induction false} BouncedPassRetries(s: Session, bad: string, good: string, backend: Backend)
    requires HasUsername(s)
    requires IsCommand(bad, "PASS") && |Parse(bad).params| > 0
    requires !backend.authenticates(s.username.value, Parse(bad).params[0])
    requires IsCommand(good, "PASS") && |Parse(good).params| > 0
    requires backend.authenticates(s.username.value, Parse(good).params[0])
    ensures var first := Step(s, bad, backend);
            && first.output == [Write("-ERR o365 bounced us")]
            && first.session == s
            && var second := Step(first.session, good, backend);
               && second.output == [Write("+OK")]
               && second.session.handle == Some(Open(s.username.value))
  {
    StepPass(s, bad, backend);
    StepPass(s, good, backend);
  }

  /** With a non-empty cached snapshot, every command but PASS leaves the
      handle, and so the snapshot, exactly as it was. */
  lemma StepKeepsSnapshot(s: Session, line: string, backend: Backend)
    requires s.handle.Some? && s.handle.value.inboxAll != []
    requires !IsCommand(line, "PASS")
    ensures Step(s, line, backend).session.handle == s.handle
  {
    if line != "" {
      var cmd := Parse(line);
      var first := Greet(s, cmd, backend);
      assert first.session.handle == s.handle;
      if first.status.Running? {
        var second := Transact(first.session, cmd, backend);
        assert second.session.handle == s.handle;
      }
    }
  }

  /** The snapshot survives any run of lines without a PASS. */
  lemma {:induction false} StepsKeepSnapshot(s: Session, lines: seq<string>, backends: seq<Backend>)
    requires |backends| == |lines|
    requires s.handle.Some? && s.handle.value.inboxAll != []
    requires NoPass(lines)
    ensures Steps(s, lines, backends).session.handle == s.handle
    decreases |lines|
  {
    if |lines| > 0 {
      var r := Step(s, lines[0], backends[0]);
      StepKeepsSnapshot(s, lines[0], backends[0]);
      if r.status.Running? {
        assert NoPass(lines[1..]) by {
          forall i | 0 <= i < |lines| - 1 ensures !IsCommand(lines[1..][i], "PASS") {
            assert lines[1..][i] == lines[i + 1];
          }
        }
        StepsKeepSnapshot(r.session, lines[1..], backends[1..]);
      }
    }
  }

  /** A line whose command is not always allowed skips the first chain and
      does exactly what the second one does. */
  lemma StepIsTransact(s: Session, line: string, backend: Backend)
    requires line != "" && !AlwaysAllowed(Parse(line).command)
    ensures Step(s, line, backend) == Transact(s, Parse(line), backend)
  {
    var cmd := Parse(line);
    assert Greet(s, cmd, backend) == StepResult(s, [], [], Running);
    var r := Transact(s, cmd, backend);
    assert [] + r.output == r.output;
    assert [] + r.actions == r.actions;
  }

  /** With a handle, a RETR line is exactly the RETR branch. */
  lemma StepRetr(s: Session, line: string, backend: Backend)
    requires s.handle.Some? && IsCommand(line, "RETR")
    ensures Step(s, line, backend) == Retr(s, s.handle.value, Parse(line).params, backend)
  {
    var cmd := Parse(line);
    StepIsTransact(s, line, backend);
    assert cmd.command == "RETR";
    assert Transact(s, cmd, backend) == Retr(s, s.handle.value, cmd.params, backend);
  }

  /** With a handle, a DELE line is exactly the DELE branch. */
  lemma StepDele(s: Session, line: string, backend: Backend)
    requires s.handle.Some? && IsCommand(line, "DELE")
    ensures Step(s, line, backend) == Dele(s, s.handle.value, Parse(line).params, backend)
  {
    var cmd := Parse(line);
    StepIsTransact(s, line, backend);
    assert cmd.command == "DELE";
    assert Transact(s, cmd, backend) == Dele(s, s.handle.value, cmd.params, backend);
  }

  /** NOOP answers +OK whether or not a handle exists, and changes nothing. */
  lemma NoopAnswersOk(s: Session, line: string, backend: Backend)
    requires IsCommand(line, "NOOP")
    ensures Step(s, line, backend) == StepResult(s, [Write("+OK")], [], Running)
  {
    var cmd := Parse(line);
    assert Greet(s, cmd, backend) == StepResult(s, [Write("+OK")], [], Running);
    assert Transact(s, cmd, backend) == StepResult(s, [], [], Running);
    assert [Write("+OK")] + [] == [Write("+OK")];
  }

  /** With a handle, every command outside the always-allowed group other
      than STAT, RETR and DELE is answered with nothing and changes nothing. */
  lemma StepIgnoresOthers(s: Session, line: string, backend: Backend)
    requires s.handle.Some? && line != ""
    requires !AlwaysAllowed(Parse(line).command) && !Transactional(Parse(line).command)
    ensures Step(s, line, backend) == StepResult(s, [], [], Running)
  {
    StepIsTransact(s, line, backend);
  }

  /** UIDL and TOP, which CAPA advertises, get no reply even with a handle. */
  lemma AdvertisedButUnanswered(s: Session, line: string, backend: Backend)
    requires s.handle.Some? && (IsCommand(line, "UIDL") || IsCommand(line, "TOP"))
    ensures Step(s, line, backend) == StepResult(s, [], [], Running)
  {
    StepIgnoresOthers(s, line, backend);
  }

  /** Whether RETR n on handle `h` finds something to send: the cache or its
      query yields a list, `n` resolves in it, and the item can be rebuilt. */
  predicate RetrFinds(h: Handle, backend: Backend, n: int) {
    && InboxAll(h, backend).Some?
    && Resolve(InboxAll(h, backend).value.inboxAll, n).Some?
    && Renderable(Resolve(InboxAll(h, backend).value.inboxAll, n).value)
  }

  /** The item RETR n sends when it finds one. */
  function RetrItem(h: Handle, backend: Backend, n: int): Item
    requires RetrFinds(h, backend, n)
  {
    Resolve(InboxAll(h, backend).value.inboxAll, n).value
  }

  /** RETR n goes on exactly when it finds an item; it then sends "+OK message
      follows", the item's rendering unaltered through `_rwrite`, and ".", and
      keeps a non-empty cache holding the item. */
  lemma RetrSends(s: Session, h: Handle, params: seq<string>, backend: Backend, n: int)
    requires |params| > 0 && ParseInt(params[0]) == Some(n)
    ensures Retr(s, h, params, backend).status.Running? <==> RetrFinds(h, backend, n)
    ensures RetrFinds(h, backend, n) ==>
              var cache := InboxAll(h, backend).value;
              && cache.inboxAll != [] && cache.account == h.account
              && Retr(s, h, params, backend) ==
                   StepResult(s.(handle := Some(cache)),
                              [Write("+OK message follows"), RWrite(backend.render(RetrItem(h, backend, n))), Write(".")],
                              [], Running)
  {
    if RetrFinds(h, backend, n) {
      var cache := InboxAll(h, backend).value;
      var item := RetrItem(h, backend, n);
      assert Retr(s, h, params, backend) ==
               StepResult(s.(handle := Some(cache)),
                          [Write("+OK message follows"), RWrite(backend.render(item)), Write(".")], [], Running);
    }
  }

  /** The same for a whole RETR line in a session that has a handle. */
  lemma RetrFillsSnapshot(s: Session, line: string, backend: Backend, n: int)
    requires s.handle.Some? && IsCommand(line, "RETR")
    requires |Parse(line).params| > 0 && ParseInt(Parse(line).params[0]) == Some(n)
    ensures Step(s, line, backend).status.Running? <==> RetrFinds(s.handle.value, backend, n)
    ensures RetrFinds(s.handle.value, backend, n) ==>
              var cache := InboxAll(s.handle.value, backend).value;
              && cache.inboxAll != [] && cache.account == s.handle.value.account
              && Step(s, line, backend) ==
                   StepResult(s.(handle := Some(cache)),
                              [Write("+OK message follows"),
                               RWrite(backend.render(RetrItem(s.handle.value, backend, n))),
                               Write(".")],
                              [], Running)
  {
    StepRetr(s, line, backend);
    RetrSends(s, s.handle.value, Parse(line).params, backend, n);
  }

  /** Whether DELE n on handle `h` finds an item: the cache or its query
      yields a list and `n` resolves in it. */
  predicate DeleFinds(h: Handle, backend: Backend, n: int) {
    InboxAll(h, backend).Some? && Resolve(InboxAll(h, backend).value.inboxAll, n).Some?
  }

  /** DELE n goes on exactly when it finds an item; it then makes the policy's
      store calls for that item, replies with the parsed number, and keeps the
      list it resolved against as the cache. */
  lemma DeleSends(s: Session, h: Handle, params: seq<string>, backend: Backend, n: int)
    requires |params| > 0 && ParseInt(params[0]) == Some(n)
    ensures Dele(s, h, params, backend).status.Running? <==> DeleFinds(h, backend, n)
    ensures DeleFinds(h, backend, n) ==>
              var cache := InboxAll(h, backend).value;
              Dele(s, h, params, backend) ==
                StepResult(s.(handle := Some(cache)), [Write("+OK message " + IntToString(n) + " deleted")],
                           DeleteActions(Resolve(cache.inboxAll, n).value), Running)
  {
  }

  /** DELE with a cached snapshot resolves against it, answers with the
      parsed number, and makes the policy's store calls for that item. */
  lemma DeleOnSnapshot(s: Session, line: string, backend: Backend, n: int)
    requires s.handle.Some? && s.handle.value.inboxAll != [] && IsCommand(line, "DELE")
    requires |Parse(line).params| > 0 && ParseInt(Parse(line).params[0]) == Some(n)
    requires Resolve(s.handle.value.inboxAll, n).Some?
    ensures Step(s, line, backend) ==
              StepResult(s, [Write("+OK message " + IntToString(n) + " deleted")],
                         DeleteActions(Resolve(s.handle.value.inboxAll, n).value), Running)
  {
    StepDele(s, line, backend);
    assert InboxAll(s.handle.value, backend) == Some(s.handle.value);
    DeleSends(s, s.handle.value, Parse(line).params, backend, n);
  }

  /** Python's negative indexing reaches the protocol: DELE 0 deletes the
      last item of the snapshot. */
  lemma DeleZeroTargetsLast(s: Session, line: string, backend: Backend)
    requires s.handle.Some? && s.handle.value.inboxAll != [] && IsCommand(line, "DELE")
    requires |Parse(line).params| > 0 && ParseInt(Parse(line).params[0]) == Some(0)
    ensures var snapshot := s.handle.value.inboxAll;
            Step(s, line, backend).actions == DeleteActions(snapshot[|snapshot| - 1])
  {
    DeleOnSnapshot(s, line, backend, 0);
  }

  /** Within a session, RETR n and a later DELE n (with no PASS between)
      act on the same item: the one whose rendering RETR sent is the one DELE
      marks read, whatever the store's unread list has become meanwhile. */
  lemma RetrThenDeleSameItem(s: Session, retr: string, b1: Backend,
                             mid: seq<string>, mids: seq<Backend>,
                             dele: string, b2: Backend, n: int)
    requires s.handle.Some? && IsCommand(retr, "RETR") && IsCommand(dele, "DELE")
    requires |Parse(retr).params| > 0 && ParseInt(Parse(retr).params[0]) == Some(n)
    requires |Parse(dele).params| > 0 && ParseInt(Parse(dele).params[0]) == Some(n)
    requires RetrFinds(s.handle.value, b1, n)
    requires |mids| == |mid| && NoPass(mid)
    ensures var item := RetrItem(s.handle.value, b1, n);
            var t := Steps(Step(s, retr, b1).session, mid, mids);
            && Step(s, retr, b1).output == [Write("+OK message follows"), RWrite(b1.render(item)), Write(".")]
            && Step(t.session, dele, b2).actions == DeleteActions(item)
  {
    RetrFillsSnapshot(s, retr, b1, n);
    var r := Step(s, retr, b1);
    var cache := InboxAll(s.handle.value, b1).value;
    assert r.session.handle == Some(cache);
    StepsKeepSnapshot(r.session, mid, mids);
    var t := Steps(r.session, mid, mids);
    DeleOnSnapshot(t.session, dele, b2, n);
  }

  /** STAT reports the store's live unread count, never the snapshot's
      length, and neither fills nor changes the snapshot. */
  lemma StatReportsLiveCount(s: Session, line: string, backend: Backend)
    requires s.handle.Some? && IsCommand(line, "STAT")
    ensures var count := backend.unreadCount(s.handle.value.account);
            var r := Step(s, line, backend);
            && r.session == s && r.actions == []
            && (count.Some? ==> r.output == [Write("+OK " + NatToString(count.value))] && r.status == Running)
            && (count.None? ==> r.output == [] && r.status == Crashed(BackendFailure))
  {
    StepIsTransact(s, line, backend);
  }

  /** The number in a DELE reply reads back as the number the client sent,
      though not necessarily as the same text ("+1" and "01" echo as "1"). */
  lemma {:induction false} DeleReplyEchoesNumber(s: Session, line: string, backend: Backend, n: int)
    requires s.handle.Some? && s.handle.value.inboxAll != [] && IsCommand(line, "DELE")
    requires |Parse(line).params| > 0 && ParseInt(Parse(line).params[0]) == Some(n)
    requires Resolve(s.handle.value.inboxAll, n).Some?
    ensures exists digits ::
              && Step(s, line, backend).output == [Write("+OK message " + digits + " deleted")]
              && ParseInt(digits) == ParseInt(Parse(line).params[0])
  {
    DeleOnSnapshot(s, line, backend, n);
    ParseIntPrintable(Parse(line).params[0], n);
    ParseIntToString(n);
    var digits := IntToString(n);
    assert Step(s, line, backend).output == [Write("+OK message " + digits + " deleted")];
  }

  /** Until a PASS line arrives, a session without a handle makes no call
      to the store and never gains a handle. */
  lemma {:induction false} NoStoreCallsBeforePass(s: Session, lines: seq<string>, backends: seq<Backend>)
    requires |backends| == |lines|
    requires s.handle.None? && NoPass(lines)
    ensures Steps(s, lines, backends).actions == []
    ensures Steps(s, lines, backends).session.handle.None?
    decreases |lines|
  {
    if |lines| > 0 {
      var r := Step(s, lines[0], backends[0]);
      if lines[0] != "" {
        var cmd := Parse(lines[0]);
        var first := Greet(s, cmd, backends[0]);
        assert first.actions == [] && first.session.handle.None?;
        if first.status.Running? {
          var second := Transact(first.session, cmd, backends[0]);
          assert second == StepResult(first.session, [], [], Running);
        }
      }
      assert r.actions == [] && r.session.handle.None?;
      if r.status.Running? {
        assert NoPass(lines[1..]) by {
          forall i | 0 <= i < |lines| - 1 ensures !IsCommand(lines[1..][i], "PASS") {
            assert lines[1..][i] == lines[i + 1];
          }
        }
        NoStoreCallsBeforePass(r.session, lines[1..], backends[1..]);
      }
    }
  }
}
