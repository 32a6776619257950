/**
 * The command dispatcher: each entry of the decoded `commands` array is
 * routed by its `type` string to one of four handlers and then acknowledged.
 * Every entry is processed inside its own try block, so a bad entry or a
 * failing handler affects that entry only.
 */
module Commands {
  import opened Opt
  import opened Effects

  /**
   * One element of the `commands` array, already decoded. `typeName` and `id`
   * are None when the member is missing or cannot be read as a string;
   * `handlerThrows` says whether the handler for a known type fails.
   */
  datatype Entry =
    | NotAnObject
    | Command(typeName: Option<string>, id: Option<string>, handlerThrows: bool)

  /** The `type` string that selects each handler. */
  function TypeName(h: Handler): string
  {
    match h
    case EnableLocation => "ENABLE_LOCATION"
    case RequestLocation => "REQUEST_LOCATION"
    case LockDevice => "LOCK_DEVICE"
    case UnlockDevice => "UNLOCK_DEVICE"
  }

  /** The handler a `type` string selects; None for an unknown type. */
  function HandlerFor(typeName: string): (r: Option<Handler>)
    ensures r.Some? ==> TypeName(r.value) == typeName
    ensures r.None? <==> forall h: Handler :: TypeName(h) != typeName
  {
    if typeName == "ENABLE_LOCATION" then Some(EnableLocation)
    else if typeName == "REQUEST_LOCATION" then Some(RequestLocation)
    else if typeName == "LOCK_DEVICE" then Some(LockDevice)
    else if typeName == "UNLOCK_DEVICE" then Some(UnlockDevice)
    else None
  }

  /** Selecting by a handler's own type string gives that handler back. */
  lemma HandlerForTypeName(h: Handler)
    ensures HandlerFor(TypeName(h)) == Some(h)
  {
  }

  /** An entry is an object from which both `type` and `id` could be read. */
  predicate WellFormed(e: Entry)
  {
    e.Command? && e.typeName.Some? && e.id.Some?
  }

  /** The handler a well-formed entry of known type selects. */
  function HandlerOf(e: Entry): Option<Handler>
  {
    if WellFormed(e) then HandlerFor(e.typeName.value) else None
  }

  /** The acknowledgement rule: well-formed, and either unknown or handled without a throw. */
  predicate Acknowledged(e: Entry)
  {
    WellFormed(e) && (HandlerOf(e).None? || !e.handlerThrows)
  }

  /** The effects of processing one entry of the batch. */
  function DispatchOne(e: Entry): seq<Effect>
  {
    if !WellFormed(e) then []
    else match HandlerFor(e.typeName.value)
      case None => [Ack(e.id.value)]
      case Some(h) =>
        if e.handlerThrows then [Invoke(h)]
        else [Invoke(h), Notify(Handled(h)), Ack(e.id.value)]
  }

  /**
   * What one entry does: it invokes the handler its type selects, shows that
   * handler's text unless it throws, acknowledges per the rule above, and
   * never schedules, fetches or rebuilds anything.
   */
  lemma DispatchOneEffects(e: Entry)
    ensures Invoked(DispatchOne(e)) == (if HandlerOf(e).Some? then [HandlerOf(e).value] else [])
    ensures Acks(DispatchOne(e)) == (if Acknowledged(e) then [e.id.value] else [])
    ensures Statuses(DispatchOne(e)) ==
            (if HandlerOf(e).Some? && !e.handlerThrows then [Handled(HandlerOf(e).value)] else [])
    ensures Delays(DispatchOne(e)) == [] && Rebuilds(DispatchOne(e)) == 0 && Fetches(DispatchOne(e)) == 0
  {
    if WellFormed(e) && HandlerOf(e).Some? && !e.handlerThrows {
      var h := HandlerOf(e).value;
      assert DispatchOne(e) == [Invoke(h), Notify(Handled(h))] + [Ack(e.id.value)];
      LogAppend([Invoke(h)], [Notify(Handled(h))]);
      LogAppend([Invoke(h), Notify(Handled(h))], [Ack(e.id.value)]);
    }
  }

  /** The effects of processing a batch, entry by entry in index order. */
  function Dispatch(cs: seq<Entry>): seq<Effect>
  {
    if cs == [] then [] else DispatchOne(cs[0]) + Dispatch(cs[1..])
  }

  /** Command processing never schedules a cycle, fetches, or rebuilds the client. */
  lemma {:induction false} DispatchSchedulesNothing(cs: seq<Entry>)
    ensures Delays(Dispatch(cs)) == [] && Rebuilds(Dispatch(cs)) == 0 && Fetches(Dispatch(cs)) == 0
  {
    if cs != [] {
      DispatchOneEffects(cs[0]);
      DispatchSchedulesNothing(cs[1..]);
      LogAppend(DispatchOne(cs[0]), Dispatch(cs[1..]));
    }
  }

  /** Processing two batches one after the other is processing their concatenation. */
  lemma {:induction false} DispatchAppend(a: seq<Entry>, b: seq<Entry>)
    ensures Dispatch(a + b) == Dispatch(a) + Dispatch(b)
  {
    if a == [] {
      assert a + b == b;
    } else {
      assert (a + b)[0] == a[0];
      assert (a + b)[1..] == a[1..] + b;
      DispatchAppend(a[1..], b);
    }
  }

  /**
   * Fault isolation: the effects of entry `i` are exactly those it would have
   * alone, whatever the entries before and after it are.
   */
  lemma {:induction false} DispatchAt(cs: seq<Entry>, i: nat)
    requires i < |cs|
    ensures Dispatch(cs) == Dispatch(cs[..i]) + DispatchOne(cs[i]) + Dispatch(cs[i + 1..])
  {
    var rest := cs[i..];
    assert cs == cs[..i] + rest;
    DispatchAppend(cs[..i], rest);
    assert rest[0] == cs[i] && rest[1..] == cs[i + 1..];
    assert Dispatch(rest) == DispatchOne(cs[i]) + Dispatch(cs[i + 1..]);
  }

  /** Some entry of the batch carries `id` and passes the acknowledgement rule. */
  predicate AckedIn(cs: seq<Entry>, id: string)
  {
    exists i :: 0 <= i < |cs| && Acknowledged(cs[i]) && cs[i].id == Some(id)
  }

  /** An id is acknowledged exactly when some entry carrying it satisfies the acknowledgement rule. */
  lemma {:induction false} AckedIff(cs: seq<Entry>, id: string)
    ensures id in Acks(Dispatch(cs)) <==> AckedIn(cs, id)
  {
    if cs != [] {
      LogAppend(DispatchOne(cs[0]), Dispatch(cs[1..]));
      DispatchOneEffects(cs[0]);
      AckedIff(cs[1..], id);
      if id in Acks(Dispatch(cs[1..])) {
        var j :| 0 <= j < |cs[1..]| && Acknowledged(cs[1..][j]) && cs[1..][j].id == Some(id);
        assert cs[j + 1] == cs[1..][j];
      }
      if exists i :: 0 <= i < |cs| && Acknowledged(cs[i]) && cs[i].id == Some(id) {
        var i :| 0 <= i < |cs| && Acknowledged(cs[i]) && cs[i].id == Some(id);
        if i > 0 {
          assert cs[1..][i - 1] == cs[i];
        }
      }
    }
  }

  /** The acknowledgement rule, for every id at once. */
  lemma AckedIffAll(cs: seq<Entry>)
    ensures forall id :: id in Acks(Dispatch(cs)) <==> AckedIn(cs, id)
  {
    forall id
      ensures id in Acks(Dispatch(cs)) <==> AckedIn(cs, id)
    {
      AckedIff(cs, id);
    }
  }

  /** A handler is invoked exactly when some entry selects it. */
  lemma {:induction false} InvokedIff(cs: seq<Entry>, h: Handler)
    ensures h in Invoked(Dispatch(cs)) <==>
            exists i :: 0 <= i < |cs| && HandlerOf(cs[i]) == Some(h)
  {
    if cs != [] {
      LogAppend(DispatchOne(cs[0]), Dispatch(cs[1..]));
      DispatchOneEffects(cs[0]);
      InvokedIff(cs[1..], h);
      if h in Invoked(Dispatch(cs[1..])) {
        var j :| 0 <= j < |cs[1..]| && HandlerOf(cs[1..][j]) == Some(h);
        assert cs[j + 1] == cs[1..][j];
      }
      if exists i :: 0 <= i < |cs| && HandlerOf(cs[i]) == Some(h) {
        var i :| 0 <= i < |cs| && HandlerOf(cs[i]) == Some(h);
        if i > 0 {
          assert cs[1..][i - 1] == cs[i];
        }
      }
    }
  }

  /**
   * A batch of a command of unknown type followed by a command of known type:
   * the known handler runs, and both ids are acknowledged, in batch order.
   */
  lemma UnknownThenKnown(unknown: string, h: Handler, unknownId: string, knownId: string)
    requires HandlerFor(unknown) == None
    ensures var log := Dispatch([Command(Some(unknown), Some(unknownId), false),
                                 Command(Some(TypeName(h)), Some(knownId), false)]);
            Acks(log) == [unknownId, knownId] && Invoked(log) == [h]
  {
    var a := Command(Some(unknown), Some(unknownId), false);
    var b := Command(Some(TypeName(h)), Some(knownId), false);
    var cs := [a, b];
    assert Dispatch(cs) == DispatchOne(a) + DispatchOne(b) by {
      var none: seq<Entry> := [];
      assert cs[0] == a && cs[1..] == [b] && [b][1..] == none;
      assert Dispatch(cs) == DispatchOne(a) + Dispatch([b]);
      assert Dispatch([b]) == DispatchOne(b) + Dispatch(none);
      assert Dispatch(none) == [];
    }
    assert Acks(DispatchOne(a)) == [unknownId] && Invoked(DispatchOne(a)) == [] by {
      DispatchOneEffects(a);
    }
    assert Acks(DispatchOne(b)) == [knownId] && Invoked(DispatchOne(b)) == [h] by {
      HandlerForTypeName(h);
      DispatchOneEffects(b);
    }
    LogAppend(DispatchOne(a), DispatchOne(b));
  }

  /**
   * The command loop as the service runs it: one entry at a time, in index
   * order. `Dispatch` is its specification, and the rest of the model uses
   * `Dispatch` directly.
   */
  method ProcessParentCommands(commands: seq<Entry>) returns (log: seq<Effect>)
    ensures log == Dispatch(commands)
    ensures forall id :: id in Acks(log) <==> AckedIn(commands, id)
  {
    log := [];
    var i := 0;
    while i < |commands|
      invariant 0 <= i <= |commands|
      invariant log == Dispatch(commands[..i])
    {
      assert commands[..i + 1] == commands[..i] + [commands[i]];
      DispatchAppend(commands[..i], [commands[i]]);
      assert [commands[i]][1..] == [];
      log := log + DispatchOne(commands[i]);
      i := i + 1;
    }
    assert commands[..i] == commands;
    AckedIffAll(commands);
  }
}
