/**
 * Handler values and the handler-list edits of lo99ing/handlers.py:127-172.
 * A handler is described by where it writes and by its formatter; the one
 * shared stderr handler of the library is `StderrHandler`.
 */
module Handlers {
  import opened Wrappers

  /** Where a handler writes: the process's stderr, another stream, a plain file, or a dated daily file. */
  datatype Target = Stderr | OtherStream(id: nat) | PlainFile(filename: string) | DailyFile(pattern: string)

  /** The library's default formatter (lo99ing/formatter.py) or some other formatter. */
  datatype Formatter = DefaultFormatter | OtherFormatter(id: nat)

  datatype Handler = Handler(target: Target, formatter: Option<Formatter>)

  /** The module-level `stderr_handler`, created with the default formatter. */
  const StderrHandler: Handler := Handler(Stderr, Some(DefaultFormatter))

  /** `_is_stderr_handler`: a stream handler whose stream is stderr. */
  predicate IsStderr(h: Handler) {
    h.target.Stderr?
  }

  predicate HasStderr(hs: seq<Handler>) {
    exists i :: 0 <= i < |hs| && IsStderr(hs[i])
  }

  /** `enable_stderr` on a handler list: append the shared stderr handler unless one is present. */
  function WithStderr(hs: seq<Handler>): (r: seq<Handler>)
    ensures HasStderr(r)
    ensures HasStderr(hs) ==> r == hs
    ensures !HasStderr(hs) ==> r == hs + [StderrHandler]
  {
    if HasStderr(hs) then hs
    else
      var r := hs + [StderrHandler];
      assert IsStderr(r[|hs|]);
      r
  }

  /** `disable_stderr` on a handler list: drop every stderr handler, keep the rest in order. */
  function WithoutStderr(hs: seq<Handler>): (r: seq<Handler>)
    ensures !HasStderr(r)
    ensures |r| <= |hs|
    ensures forall h :: h in r <==> h in hs && !IsStderr(h)
  {
    if hs == [] then []
    else if IsStderr(hs[0]) then WithoutStderr(hs[1..])
    else
      var rest := WithoutStderr(hs[1..]);
      assert forall h :: h in hs <==> h == hs[0] || h in hs[1..];
      [hs[0]] + rest
  }

  /** `enable_stderr` is idempotent. */
  lemma WithStderrIdempotent(hs: seq<Handler>)
    ensures WithStderr(WithStderr(hs)) == WithStderr(hs)
  {
  }

  /** Removing stderr handlers distributes over concatenation, so the order of the others is kept. */
  lemma {:induction false} WithoutStderrAppend(a: seq<Handler>, b: seq<Handler>)
    ensures WithoutStderr(a + b) == WithoutStderr(a) + WithoutStderr(b)
  {
    if a == [] {
      assert a + b == b;
    } else {
      assert (a + b)[0] == a[0];
      assert (a + b)[1..] == a[1..] + b;
      WithoutStderrAppend(a[1..], b);
    }
  }

  /**
   * The loop of `disable_stderr`: one pass over a snapshot of the handler
   * list, where each stderr handler is removed and every other one stays.
   */
  method RemoveStderr(snapshot: seq<Handler>) returns (kept: seq<Handler>)
    ensures kept == WithoutStderr(snapshot)
  {
    kept := [];
    var i := 0;
    while i < |snapshot|
      invariant 0 <= i <= |snapshot|
      invariant kept == WithoutStderr(snapshot[..i])
    {
      WithoutStderrAppend(snapshot[..i], [snapshot[i]]);
      assert snapshot[..i + 1] == snapshot[..i] + [snapshot[i]];
      if !IsStderr(snapshot[i]) {
        kept := kept + [snapshot[i]];
      }
      i := i + 1;
    }
    assert snapshot[..i] == snapshot;
  }

  /** A list without stderr handlers is left as it is. */
  lemma {:induction false} WithoutStderrNoop(hs: seq<Handler>)
    requires !HasStderr(hs)
    ensures WithoutStderr(hs) == hs
  {
    if hs != [] {
      assert !IsStderr(hs[0]);
      assert !HasStderr(hs[1..]) by {
        forall i | 0 <= i < |hs[1..]| ensures !IsStderr(hs[1..][i]) {
          assert hs[1..][i] == hs[i + 1];
        }
      }
      WithoutStderrNoop(hs[1..]);
    }
  }

  /** Disabling then enabling stderr leaves the other handlers in order and exactly one stderr handler, last. */
  lemma DisableThenEnable(hs: seq<Handler>)
    ensures WithStderr(WithoutStderr(hs)) == WithoutStderr(hs) + [StderrHandler]
  {
  }

  /** The formatter step of `_add_logging_handler`: the default formatter only if the handler has none. */
  function Formatted(h: Handler): (r: Handler)
    ensures r.target == h.target
    ensures h.formatter.Some? ==> r == h
    ensures h.formatter.None? ==> r.formatter == Some(DefaultFormatter)
  {
    if h.formatter.None? then h.(formatter := Some(DefaultFormatter)) else h
  }

  /**
   * `Logger.addHandler(h)`: the handler is appended unless it is already
   * attached. Handlers are compared as values, standing in for the identity
   * test of `h in self.handlers`.
   */
  function AddHandler(hs: seq<Handler>, h: Handler): (r: seq<Handler>)
    ensures h in r
    ensures forall x :: x in r <==> x in hs || x == h
    ensures h in hs ==> r == hs
    ensures h !in hs ==> r == hs + [h]
  {
    if h in hs then hs else hs + [h]
  }

  /** Adding the same handler again changes nothing: a handler is attached at most once. */
  lemma AddHandlerIdempotent(hs: seq<Handler>, h: Handler)
    ensures AddHandler(AddHandler(hs, h), h) == AddHandler(hs, h)
  {
  }

  /** `enable_stderr` is `addHandler` of the shared handler, done only when no stderr handler is attached. */
  lemma WithStderrIsAddHandler(hs: seq<Handler>)
    ensures !HasStderr(hs) ==> WithStderr(hs) == AddHandler(hs, StderrHandler)
  {
  }

  /**
   * `handler.setFormatter(formatter)` seen through a handler list: the
   * handler object changes in place, so each entry that is `h` becomes
   * `Formatted(h)` and every other entry stays.
   */
  function FormatAttached(hs: seq<Handler>, h: Handler): (r: seq<Handler>)
    ensures |r| == |hs|
    ensures forall i :: 0 <= i < |hs| ==> r[i] == (if hs[i] == h then Formatted(h) else hs[i])
    ensures h !in hs ==> r == hs
  {
    if hs == [] then []
    else [if hs[0] == h then Formatted(h) else hs[0]] + FormatAttached(hs[1..], h)
  }

  /**
   * `_add_logging_handler(h, logger)` on the logger's handler list: the
   * default formatter is set on `h` when it has none, which also reaches
   * `h` where it is attached already, and then `addHandler` appends it
   * only when it is not attached.
   */
  function AttachHandler(hs: seq<Handler>, h: Handler): (r: seq<Handler>)
    ensures Formatted(h) in r
    ensures h in hs ==> |r| == |hs| && forall i :: 0 <= i < |hs| ==> r[i] == (if hs[i] == h then Formatted(h) else hs[i])
    ensures h !in hs ==> r == AddHandler(hs, Formatted(h))
  {
    var formatted := FormatAttached(hs, h);
    if h in hs then
      var i :| 0 <= i < |hs| && hs[i] == h;
      assert formatted[i] == Formatted(h);
      AddHandler(formatted, Formatted(h))
    else
      AddHandler(formatted, Formatted(h))
  }

  /** A handler attached once and passed again, now formatted, changes nothing more. */
  lemma AttachHandlerOnce(hs: seq<Handler>, h: Handler)
    ensures AttachHandler(AttachHandler(hs, h), Formatted(h)) == AttachHandler(hs, h)
  {
    var r := AttachHandler(hs, h);
    assert Formatted(Formatted(h)) == Formatted(h);
    var again := AttachHandler(r, Formatted(h));
    assert |again| == |r|;
    forall i | 0 <= i < |r|
      ensures again[i] == r[i]
    {
    }
  }

  /** For a handler that has a formatter, `_add_logging_handler` is `addHandler` alone. */
  lemma AttachFormattedIsAddHandler(hs: seq<Handler>, h: Handler)
    requires h.formatter.Some?
    ensures AttachHandler(hs, h) == AddHandler(hs, h)
  {
    if h in hs {
      var r := AttachHandler(hs, h);
      assert |r| == |hs|;
      forall i | 0 <= i < |hs|
        ensures r[i] == hs[i]
      {
      }
    }
  }

  /** A handler attached without a formatter is formatted in place, and is not listed twice. */
  lemma AttachedUnformattedHandler(target: Target)
    ensures var h := Handler(target, None);
            AttachHandler([h], h) == [h.(formatter := Some(DefaultFormatter))]
  {
    var h := Handler(target, None);
    assert AttachHandler([h], h)[0] == Formatted(h);
  }
}
