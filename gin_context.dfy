/**
 * The part of a web framework's per-request context that the two
 * middlewares use: the Authorization request header, the key/value store
 * (`Set`), continuing the handler chain (`Next`) and aborting with a status
 * code and a JSON error body (`AbortWithStatusJSON`).
 */
module Gin {
  import opened Claims

  const StatusOK := 200
  const StatusUnauthorized := 401
  const StatusForbidden := 403

  /** One call a handler makes on its context. */
  datatype Action =
    | SetKey(key: string, value: Claims)    // c.Set(key, value)
    | CallNext                              // c.Next()
    | Abort(status: int, message: string)   // c.AbortWithStatusJSON(status, {"error": message})

  /** The observable state of a context. */
  datatype ContextState = ContextState(
    keys: map<string, Claims>,
    aborted: bool,
    status: int,
    message: string,
    nextCalled: bool)

  /** A fresh context: nothing stored, not aborted, status 200, no handler run yet. */
  const Initial := ContextState(map[], false, StatusOK, "", false)

  /** The effect of one call on the state. */
  function Step(s: ContextState, a: Action): ContextState
  {
    match a
    case SetKey(k, v) => s.(keys := s.keys[k := v])
    case CallNext => s.(nextCalled := true)
    case Abort(code, msg) => s.(aborted := true, status := code, message := msg)
  }

  /** The effect of a sequence of calls, made in order. */
  function Run(s: ContextState, acts: seq<Action>): ContextState
    decreases |acts|
  {
    if acts == [] then s else Run(Step(s, acts[0]), acts[1..])
  }

  /** Running one more call after a sequence is one more step. */
  lemma {:induction false} RunSnoc(s: ContextState, acts: seq<Action>, a: Action)
    ensures Run(s, acts + [a]) == Step(Run(s, acts), a)
    decreases |acts|
  {
    if acts == [] {
      assert acts + [a] == [a];
      assert [a][1..] == [];
    } else {
      assert (acts + [a])[1..] == acts[1..] + [a];
      RunSnoc(Step(s, acts[0]), acts[1..], a);
    }
  }

  /** The calls continue the handler chain. */
  predicate Continues(acts: seq<Action>)
  {
    exists i :: 0 <= i < |acts| && acts[i] == CallNext
  }

  /** The calls abort the request with status `code`. */
  predicate AbortsWith(acts: seq<Action>, code: int)
  {
    exists i :: 0 <= i < |acts| && acts[i].Abort? && acts[i].status == code
  }

  class Context {
    /** Value of the Authorization request header; "" when the header is absent. */
    const authorization: string

    var keys: map<string, Claims>
    var aborted: bool
    var status: int
    var message: string
    var nextCalled: bool

    /** The calls made on this context so far, oldest first. */
    ghost var log: seq<Action>

    function Snapshot(): ContextState
      reads this
    {
      ContextState(keys, aborted, status, message, nextCalled)
    }

    constructor (authorization: string)
      ensures this.authorization == authorization
      ensures Snapshot() == Initial && log == []
    {
      this.authorization := authorization;
      keys, aborted, status, message, nextCalled := map[], false, StatusOK, "", false;
      log := [];
    }

    method Set(key: string, value: Claims)
      modifies this
      ensures Snapshot() == Step(old(Snapshot()), SetKey(key, value))
      ensures log == old(log) + [SetKey(key, value)]
    {
      keys := keys[key := value];
      log := log + [SetKey(key, value)];
    }

    method Next()
      modifies this
      ensures Snapshot() == Step(old(Snapshot()), CallNext)
      ensures log == old(log) + [CallNext]
    {
      nextCalled := true;
      log := log + [CallNext];
    }

    method AbortWithStatusJSON(code: int, msg: string)
      modifies this
      ensures Snapshot() == Step(old(Snapshot()), Abort(code, msg))
      ensures log == old(log) + [Abort(code, msg)]
    {
      aborted, status, message := true, code, msg;
      log := log + [Abort(code, msg)];
    }
  }
}
