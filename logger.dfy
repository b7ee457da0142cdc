/** The logger (`Logger`): a name and an ordered list of appenders. Each of
    the six public calls builds one event at its own rank and hands it to
    every appender, in list order, without looking at the appenders' masks.

    What an appender does with an event is its own side effect and is not
    modelled; each call of `append` is recorded instead in the ghost trace
    `dispatched` of the logger. */
module Logging {
  import opened Wrappers
  import opened Location
  import Levels

  /** An appender as the logger sees it: its name and the mask of ranks it
      declares. Its identity in a logger is its position in the list. */
  datatype Appender = Appender(name: string, levels: Levels.Level)

  /** One log occurrence. `M` and `E` stand for the untyped payload and the
      error value; `logger` is the logger that built the event. */
  datatype Event<M, E> = Event(
    locationInfo: LocationInfo,
    timestamp: string,
    level: Levels.Level,
    name: string,
    logger: Logger<M, E>,
    message: Option<M>,
    error: Option<E>)

  /** One call of `append`: the appender called and the event it was given. */
  datatype Delivery<M, E> = Delivery(appender: Appender, event: Event<M, E>)

  /** The calls of `append` that handing `event` to `appenders` makes, in order. */
  function Fanout<M, E>(appenders: seq<Appender>, event: Event<M, E>): seq<Delivery<M, E>>
  {
    if appenders == [] then [] else [Delivery(appenders[0], event)] + Fanout(appenders[1..], event)
  }

  /** The appenders called, in order, by a sequence of deliveries. */
  function Receivers<M, E>(ds: seq<Delivery<M, E>>): seq<Appender>
  {
    seq(|ds|, i requires 0 <= i < |ds| => ds[i].appender)
  }

  lemma {:induction false} FanoutAppend<M, E>(xs: seq<Appender>, ys: seq<Appender>, event: Event<M, E>)
    ensures Fanout(xs + ys, event) == Fanout(xs, event) + Fanout(ys, event)
  {
    if xs != [] {
      assert (xs + ys)[1..] == xs[1..] + ys;
      FanoutAppend(xs[1..], ys, event);
    } else {
      assert xs + ys == ys;
    }
  }

  /** The `k`-th call goes to the `k`-th appender, with the event. */
  lemma {:induction false} FanoutAt<M, E>(appenders: seq<Appender>, event: Event<M, E>)
    ensures |Fanout(appenders, event)| == |appenders|
    ensures forall k :: 0 <= k < |appenders| ==> Fanout(appenders, event)[k] == Delivery(appenders[k], event)
  {
    if appenders != [] {
      FanoutAt(appenders[1..], event);
    }
  }

  /** Every appender is called exactly once per event, in list order, and
      whatever mask it declares: the calls are the list itself. No other
      event is handed out. */
  lemma {:induction false} FanoutReachesEveryAppender<M, E>(appenders: seq<Appender>, event: Event<M, E>)
    ensures Receivers(Fanout(appenders, event)) == appenders
    ensures forall d :: d in Fanout(appenders, event) ==> d.event == event
    ensures appenders == [] <==> Fanout(appenders, event) == []
  {
    FanoutAt(appenders, event);
  }

  /** The logger does not filter: an appender whose mask does not match the
      event's level is called all the same. With an appender subscribed to
      `error` and `fatal` only and one subscribed to `all`, an `info` event
      reaches both, in that order. */
  lemma InfoReachesErrorOnlyAppender<M, E>(a: Appender, b: Appender, event: Event<M, E>)
    requires a.levels == Levels.Union(Levels.Of(Levels.Error), Levels.Of(Levels.Fatal))
    requires b.levels == Levels.All
    requires event.level == Levels.Of(Levels.Info)
    ensures !Levels.Matches(a.levels, event.level) && Levels.Matches(b.levels, event.level)
    ensures Fanout([a, b], event) == [Delivery(a, event), Delivery(b, event)]
  {
    FanoutAt([a, b], event);
  }

  const DefaultName: string := "Logger"

  class Logger<M, E> {
    var appenders: seq<Appender>
    var name: string
    /** Every call of `append` made so far, in order. */
    ghost var dispatched: seq<Delivery<M, E>>

    /** A logger with the given name and appenders; an absent name is
        `"Logger"` and an absent list is the one standard-output appender. */
    constructor (name: Option<string>, appenders: Option<seq<Appender>>, standardOutput: Appender)
      ensures appenders.Some? ==> this.appenders == appenders.value
      ensures appenders.None? ==> this.appenders == [standardOutput]
      ensures name.Some? ==> this.name == name.value
      ensures name.None? ==> this.name == DefaultName
      ensures dispatched == []
    {
      var given := if appenders.Some? then appenders.value else [standardOutput];
      this.appenders := [];
      this.name := if name.Some? then name.value else DefaultName;
      dispatched := [];
      new;
      this.appenders := this.appenders + given;
    }

    /** The event a call at `level` builds: the call site, the time, the rank,
        this logger's name and identity, the payload and the error. */
    function EventFor(level: Levels.Level, item: Option<M>, error: Option<E>,
                      file: string, functionName: string, line: int, column: int,
                      timestamp: string): Event<M, E>
      reads this
    {
      Event(LocationInfo(file, line, column, functionName), timestamp, level, name, this, item, error)
    }

    /** Calls `append` on one appender. */
    method Append(appender: Appender, event: Event<M, E>)
      modifies this`dispatched
      ensures dispatched == old(dispatched) + [Delivery(appender, event)]
    {
      dispatched := dispatched + [Delivery(appender, event)];
    }

    /** Builds one event and hands it to every appender in list order. */
    method Log(level: Levels.Level, item: Option<M>, error: Option<E>,
               file: string, functionName: string, line: int, column: int,
               timestamp: string)
      modifies this`dispatched
      ensures appenders == old(appenders) && name == old(name)
      ensures dispatched == old(dispatched) +
        Fanout(appenders, EventFor(level, item, error, file, functionName, line, column, timestamp))
    {
      var event := EventFor(level, item, error, file, functionName, line, column, timestamp);
      for i := 0 to |appenders|
        invariant dispatched == old(dispatched) + Fanout(appenders[..i], event)
      {
        Append(appenders[i], event);
        FanoutAppend(appenders[..i], [appenders[i]], event);
        assert appenders[..i + 1] == appenders[..i] + [appenders[i]];
      }
      assert appenders[..|appenders|] == appenders;
    }

    method Trace(item: Option<M>, error: Option<E>,
                 file: string, functionName: string, line: int, column: int,
                 timestamp: string)
      modifies this`dispatched
      ensures appenders == old(appenders) && name == old(name)
      ensures dispatched == old(dispatched) +
        Fanout(appenders, EventFor(Levels.Of(Levels.Trace), item, error, file, functionName, line, column, timestamp))
    {
      Log(Levels.Of(Levels.Trace), item, error, file, functionName, line, column, timestamp);
    }

    method Debug(item: Option<M>, error: Option<E>,
                 file: string, functionName: string, line: int, column: int,
                 timestamp: string)
      modifies this`dispatched
      ensures appenders == old(appenders) && name == old(name)
      ensures dispatched == old(dispatched) +
        Fanout(appenders, EventFor(Levels.Of(Levels.Debug), item, error, file, functionName, line, column, timestamp))
    {
      Log(Levels.Of(Levels.Debug), item, error, file, functionName, line, column, timestamp);
    }

    method Info(item: Option<M>, error: Option<E>,
                file: string, functionName: string, line: int, column: int,
                timestamp: string)
      modifies this`dispatched
      ensures appenders == old(appenders) && name == old(name)
      ensures dispatched == old(dispatched) +
        Fanout(appenders, EventFor(Levels.Of(Levels.Info), item, error, file, functionName, line, column, timestamp))
    {
      Log(Levels.Of(Levels.Info), item, error, file, functionName, line, column, timestamp);
    }

    method Warning(item: Option<M>, error: Option<E>,
                   file: string, functionName: string, line: int, column: int,
                   timestamp: string)
      modifies this`dispatched
      ensures appenders == old(appenders) && name == old(name)
      ensures dispatched == old(dispatched) +
        Fanout(appenders, EventFor(Levels.Of(Levels.Warning), item, error, file, functionName, line, column, timestamp))
    {
      Log(Levels.Of(Levels.Warning), item, error, file, functionName, line, column, timestamp);
    }

    method Error(item: Option<M>, error: Option<E>,
                 file: string, functionName: string, line: int, column: int,
                 timestamp: string)
      modifies this`dispatched
      ensures appenders == old(appenders) && name == old(name)
      ensures dispatched == old(dispatched) +
        Fanout(appenders, EventFor(Levels.Of(Levels.Error), item, error, file, functionName, line, column, timestamp))
    {
      Log(Levels.Of(Levels.Error), item, error, file, functionName, line, column, timestamp);
    }

    method Fatal(item: Option<M>, error: Option<E>,
                 file: string, functionName: string, line: int, column: int,
                 timestamp: string)
      modifies this`dispatched
      ensures appenders == old(appenders) && name == old(name)
      ensures dispatched == old(dispatched) +
        Fanout(appenders, EventFor(Levels.Of(Levels.Fatal), item, error, file, functionName, line, column, timestamp))
    {
      Log(Levels.Of(Levels.Fatal), item, error, file, functionName, line, column, timestamp);
    }
  }
}
