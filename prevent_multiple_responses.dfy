/**
 * `preventMultipleResponses`: replaces `res.send` by a wrapper that forwards
 * the first call to the `send` it found and swallows every later one.
 *
 * Each run of the middleware captures the current `res.send` and installs a
 * new wrapper with its own flag around it, so a response that passes the
 * middleware twice carries a stack of wrappers. A call of `res.send` enters
 * the outermost wrapper and goes inwards until a wrapper whose flag is
 * already set swallows it; every wrapper it passes sets its flag. Only a
 * call that passes every wrapper reaches Express's own `send`, which writes
 * the response once and fails on every later call, the headers having gone
 * out (ERR_HTTP_HEADERS_SENT).
 */
module PreventMultipleResponses {

  /**
   * What a call of `send` carries: a body Express's `send` writes as it is
   * (a string or a Buffer), or a non-null object, which Express's `send`
   * hands to `this.json`, whose serialisation `serialised` is then passed to
   * `this.send` again from the top, through the wrappers.
   */
  datatype Body = Text(text: string) | Object(serialised: string)

  /** Every flag of the stack is unset. */
  predicate Clear(flags: seq<bool>) {
    forall i :: 0 <= i < |flags| ==> !flags[i]
  }

  /**
   * The flags after one call walked the stack, outermost first: every wrapper
   * up to and including the first one already set is set.
   */
  function Raise(flags: seq<bool>): (r: seq<bool>)
    ensures |r| == |flags|
    ensures forall i :: 0 <= i < |r| ==> r[i] == (flags[i] || forall k :: 0 <= k < i ==> !flags[k])
  {
    if flags == [] then []
    else if flags[0] then flags
    else [true] + Raise(flags[1..])
  }

  /** A second walk changes nothing: the outermost flag is set after the first. */
  lemma RaiseIdempotent(flags: seq<bool>)
    ensures Raise(Raise(flags)) == Raise(flags)
  {
  }

  /** After a walk over a non-empty stack the stack is no longer clear, so no later call gets through. */
  lemma RaisedNotClear(flags: seq<bool>)
    ensures flags != [] ==> Raise(flags) != [] && !Clear(Raise(flags))
  {
    if flags != [] {
      assert Raise(flags)[0];
    }
  }

  /** How one call of `res.send` ends: the body goes out, a wrapper swallows the call, or Express's `send` throws. */
  datatype Outcome = Wrote(text: string) | Swallowed | Threw

  /** The outcome of `res.send(body)` on the stack `flags`, `sent` telling whether a response already went out. */
  function Reply(body: Body, flags: seq<bool>, sent: bool): (o: Outcome)
    ensures o.Wrote? <==> Clear(flags) && !sent && (body.Text? || flags == [])
    ensures o == Threw <==> Clear(flags) && sent
    ensures o.Wrote? ==> o.text == if body.Text? then body.text else body.serialised
  {
    if !Clear(flags) then Swallowed
    else if sent then Threw
    else match body
      case Text(s) => Wrote(s)
      case Object(s) => if flags == [] then Wrote(s) else Swallowed
  }

  /** An Express response as far as the wrappers see it. */
  class Response {
    /** The wrappers' flags, outermost (last installed) first; empty while `res.send` is Express's own. */
    var flags: seq<bool>
    /** The bodies Express's own `send` wrote, in order. */
    var delivered: seq<string>
    /** How many times the middleware has called `next`. */
    var nextCalls: nat

    constructor ()
      ensures flags == [] && delivered == [] && nextCalls == 0
    {
      flags := [];
      delivered := [];
      nextCalls := 0;
    }

    /** One call of `res.send` walking the wrappers; reports whether it reached Express's `send`. */
    method Walk() returns (reached: bool)
      modifies this
      ensures reached <==> Clear(old(flags))
      ensures flags == Raise(old(flags))
      ensures delivered == old(delivered) && nextCalls == old(nextCalls)
    {
      var i := 0;
      while i < |flags| && !flags[i]
        invariant 0 <= i <= |flags| == |old(flags)|
        invariant forall k :: 0 <= k < i ==> !old(flags)[k] && flags[k]
        invariant forall k :: i <= k < |flags| ==> flags[k] == old(flags)[k]
        invariant delivered == old(delivered) && nextCalls == old(nextCalls)
      {
        flags := flags[i := true];
        i := i + 1;
      }
      reached := i == |flags|;
      assert !reached ==> old(flags)[i];
      assert flags == Raise(old(flags));
    }

    /**
     * `res.send(body)`. An object that reaches Express's `send` comes back
     * through `this.json` as a second call of `res.send`.
     */
    method Send(body: Body) returns (o: Outcome)
      modifies this
      ensures o == Reply(body, old(flags), old(delivered) != [])
      ensures delivered == old(delivered) + (if o.Wrote? then [o.text] else [])
      ensures flags == Raise(old(flags))
      ensures nextCalls == old(nextCalls)
    {
      var reached := Walk();
      if !reached {
        return Swallowed;
      }
      if delivered != [] {
        // the headers are out: Express's `send` fails setting them again
        return Threw;
      }
      match body
      case Text(s) =>
        delivered := delivered + [s];
        o := Wrote(s);
      case Object(s) =>
        var again := Walk();
        RaiseIdempotent(old(flags));
        if again {
          delivered := delivered + [s];
          o := Wrote(s);
        } else {
          o := Swallowed;
        }
    }
  }

  /** The middleware: wrap the current `send` with a fresh flag, then call `next` once. */
  method Install(res: Response)
    modifies res
    ensures res.flags == [false] + old(res.flags)
    ensures res.delivered == old(res.delivered)
    ensures res.nextCalls == old(res.nextCalls) + 1
  {
    res.flags := [false] + res.flags;
    res.nextCalls := res.nextCalls + 1;
  }

  /** The outcomes of a series of sends, given the stack the first one enters and whether a response went out. */
  function Outcomes(bodies: seq<Body>, flags: seq<bool>, sent: bool): (os: seq<Outcome>)
    ensures |os| == |bodies|
    decreases |bodies|
  {
    if bodies == [] then []
    else
      var o := Reply(bodies[0], flags, sent);
      [o] + Outcomes(bodies[1..], Raise(flags), sent || o.Wrote?)
  }

  /** The bodies a series of outcomes put on the wire. */
  function Written(os: seq<Outcome>): (w: seq<string>)
    ensures |w| <= |os|
    ensures w == [] <==> forall i :: 0 <= i < |os| ==> !os[i].Wrote?
  {
    if os == [] then []
    else (if os[0].Wrote? then [os[0].text] else []) + Written(os[1..])
  }

  lemma {:induction false} WrittenAppend(a: seq<Outcome>, b: seq<Outcome>)
    ensures Written(a + b) == Written(a) + Written(b)
  {
    if a == [] {
      assert a + b == b;
    } else {
      assert (a + b)[0] == a[0] && (a + b)[1..] == a[1..] + b;
      WrittenAppend(a[1..], b);
    }
  }

  /** One more send: its outcome is decided by the stack and by whether the earlier sends wrote anything. */
  lemma {:induction false} OutcomesSnoc(a: seq<Body>, b: Body, flags: seq<bool>, sent: bool)
    ensures Outcomes(a + [b], flags, sent) ==
      Outcomes(a, flags, sent) +
      [Reply(b, if a == [] then flags else Raise(flags), sent || Written(Outcomes(a, flags, sent)) != [])]
    decreases |a|
  {
    if a == [] {
      assert [b][1..] == [];
    } else {
      var o := Reply(a[0], flags, sent);
      assert (a + [b])[0] == a[0] && (a + [b])[1..] == a[1..] + [b];
      OutcomesSnoc(a[1..], b, Raise(flags), sent || o.Wrote?);
      RaiseIdempotent(flags);
      var rest := Outcomes(a[1..], Raise(flags), sent || o.Wrote?);
      assert Outcomes(a, flags, sent) == [o] + rest;
      WrittenAppend([o], rest);
    }
  }

  /** However many times `send` is called, at most one body goes out, and none once a response has gone out. */
  lemma {:induction false} AtMostOneWritten(bodies: seq<Body>, flags: seq<bool>, sent: bool)
    ensures |Written(Outcomes(bodies, flags, sent))| <= 1
    ensures sent ==> Written(Outcomes(bodies, flags, sent)) == []
    decreases |bodies|
  {
    if bodies != [] {
      var o := Reply(bodies[0], flags, sent);
      AtMostOneWritten(bodies[1..], Raise(flags), sent || o.Wrote?);
      WrittenAppend([o], Outcomes(bodies[1..], Raise(flags), sent || o.Wrote?));
    }
  }

  /** Behind a wrapper whose flag is set, every call is swallowed. */
  lemma {:induction false} SetFlagSwallows(bodies: seq<Body>, flags: seq<bool>, sent: bool)
    requires !Clear(flags)
    ensures forall i :: 0 <= i < |bodies| ==> Outcomes(bodies, flags, sent)[i] == Swallowed
    decreases |bodies|
  {
    if bodies != [] {
      var o := Reply(bodies[0], flags, sent);
      var j :| 0 <= j < |flags| && flags[j];
      assert Raise(flags)[j];
      SetFlagSwallows(bodies[1..], Raise(flags), sent || o.Wrote?);
    }
  }

  /**
   * What the middleware is for: behind a wrapper installed before anything
   * was sent, no call of `send` ever reaches Express's failing second `send`.
   */
  lemma WrapperPreventsThrow(bodies: seq<Body>, flags: seq<bool>)
    requires flags != []
    ensures forall i :: 0 <= i < |bodies| ==> Outcomes(bodies, flags, false)[i] != Threw
  {
    if bodies != [] {
      var o := Reply(bodies[0], flags, false);
      RaisedNotClear(flags);
      SetFlagSwallows(bodies[1..], Raise(flags), o.Wrote?);
    }
  }

  /** Once a response has gone out, every call of Express's own `send` throws. */
  lemma {:induction false} UnwrappedAfterSentThrows(bodies: seq<Body>)
    ensures forall i :: 0 <= i < |bodies| ==> Outcomes(bodies, [], true)[i] == Threw
    decreases |bodies|
  {
    if bodies != [] {
      UnwrappedAfterSentThrows(bodies[1..]);
    }
  }

  /** Without the wrapper the first send goes out and every later one throws. */
  lemma UnwrappedRepeatThrows(bodies: seq<Body>)
    requires bodies != []
    ensures Outcomes(bodies, [], false)[0].Wrote?
    ensures forall i :: 1 <= i < |bodies| ==> Outcomes(bodies, [], false)[i] == Threw
  {
    UnwrappedAfterSentThrows(bodies[1..]);
  }

  /** One loop step of `SendAll`: the outcome of send i extends the outcomes and the written bodies. */
  lemma PrefixStep(bodies: seq<Body>, i: nat, flags0: seq<bool>, sent0: bool, os: seq<Outcome>, o: Outcome)
    requires i < |bodies|
    requires os == Outcomes(bodies[..i], flags0, sent0)
    requires o == Reply(bodies[i], if i == 0 then flags0 else Raise(flags0), sent0 || Written(os) != [])
    ensures os + [o] == Outcomes(bodies[..i + 1], flags0, sent0)
    ensures Written(os + [o]) == Written(os) + (if o.Wrote? then [o.text] else [])
  {
    OutcomesSnoc(bodies[..i], bodies[i], flags0, sent0);
    assert bodies[..i + 1] == bodies[..i] + [bodies[i]];
    WrittenAppend(os, [o]);
    assert Written([o]) == if o.Wrote? then [o.text] else [];
  }

  /** Any sequence of sends ends as `Outcomes` says and puts on the wire what those outcomes wrote. */
  method SendAll(res: Response, bodies: seq<Body>) returns (outcomes: seq<Outcome>)
    modifies res
    ensures outcomes == Outcomes(bodies, old(res.flags), old(res.delivered) != [])
    ensures res.delivered == old(res.delivered) + Written(outcomes)
    ensures res.flags == if bodies == [] then old(res.flags) else Raise(old(res.flags))
    ensures res.nextCalls == old(res.nextCalls)
  {
    ghost var flags0, delivered0 := res.flags, res.delivered;
    outcomes := [];
    var i := 0;
    while i < |bodies|
      invariant 0 <= i <= |bodies|
      invariant res.nextCalls == old(res.nextCalls)
      invariant res.flags == if i == 0 then flags0 else Raise(flags0)
      invariant outcomes == Outcomes(bodies[..i], flags0, delivered0 != [])
      invariant res.delivered == delivered0 + Written(outcomes)
    {
      assert (res.delivered != []) == (delivered0 != [] || Written(outcomes) != []);
      var o := res.Send(bodies[i]);
      PrefixStep(bodies, i, flags0, delivered0 != [], outcomes, o);
      RaiseIdempotent(flags0);
      outcomes := outcomes + [o];
      i := i + 1;
    }
    assert bodies[..i] == bodies;
  }

  /** A whole request: the middleware runs once, then handlers send text; only the first body goes out. */
  method Request(bodies: seq<string>) returns (res: Response)
    requires bodies != []
    ensures res.delivered == [bodies[0]]
    ensures res.nextCalls == 1
  {
    res := new Response();
    Install(res);
    var sends := seq(|bodies|, i requires 0 <= i < |bodies| => Text(bodies[i]));
    var outcomes := SendAll(res, sends);
    AtMostOneWritten(sends[1..], Raise([false]), true);
  }

  /**
   * `res.send({...})` through the wrapper: Express's `send` re-enters the
   * wrapper with the serialised object, finds the flag set and swallows it,
   * so nothing goes out, and later sends are swallowed too.
   */
  method ObjectBodyThroughWrapper(obj: string, later: seq<Body>) returns (res: Response)
    ensures res.delivered == []
  {
    res := new Response();
    Install(res);
    var outcomes := SendAll(res, [Object(obj)] + later);
    SetFlagSwallows(later, Raise([false]), false);
  }

  /**
   * The middleware running twice on one response: the second wrapper wraps the
   * first, so after one send the first wrapper's flag stays set and a send
   * after the second installation is still swallowed.
   */
  method InstalledTwice(a: string, b: string) returns (res: Response)
    ensures res.delivered == [a]
    ensures res.nextCalls == 2
  {
    res := new Response();
    Install(res);
    var _ := res.Send(Text(a));
    Install(res);
    var _ := res.Send(Text(b));
  }
}
