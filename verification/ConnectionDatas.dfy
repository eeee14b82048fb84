/** `RequestData` and `ConnectionData`: the request table, updated in place. */
module ConnectionDatas {
  import opened Bytes
  import opened Pairs
  import Replies
  import opened Requests

  /** One request: what came in for it, and what the application wants sent back. `serial` is the
      object's identity as the specification sees it. */
  class RequestData {
    var paramsMap: PairMap
    var paramsBuffer: bytes
    var stdin: bytes
    var outBuffer: bytes
    var errBuffer: bytes
    var appStatus: int
    ghost const serial: nat

    /** `noise` is what the uninitialised status happens to be. */
    constructor (noise: int, ghost serial: nat)
      ensures paramsMap == map[] && paramsBuffer == [] && stdin == []
      ensures Output() == Replies.Output([], [], noise) && this.serial == serial
    {
      paramsMap, paramsBuffer, stdin := map[], [], [];
      outBuffer, errBuffer, appStatus := [], [], noise;
      this.serial := serial;
    }

    function Output(): Replies.Output
      reads this`outBuffer, this`errBuffer, this`appStatus
    {
      Replies.Output(outBuffer, errBuffer, appStatus)
    }

    method SetOutput(out: bytes, err: bytes, status: int)
      modifies this`outBuffer, this`errBuffer, this`appStatus
      ensures Output() == Replies.Output(out, err, status)
    {
      outBuffer, errBuffer, appStatus := out, err, status;
    }

    method ParseFCGIParams()
      modifies this`paramsMap
      ensures paramsMap == ParseInto(Low32(paramsBuffer), old(paramsMap))
    {
      paramsMap := ParsePairs(paramsBuffer, Uint32(|paramsBuffer|), paramsMap);
    }
  }

  /** The two flag bits of a request's state. */
  const IN_COMPLETED := 1
  const PARAMS_COMPLETED := 2

  predicate InCompleted(state: nat) {
    state % 2 == 1
  }

  predicate ParamsCompleted(state: nat) {
    state / 2 % 2 == 1
  }

  /** `state | IN_COMPLETED`. */
  function WithIn(state: nat): nat {
    if InCompleted(state) then state else state + IN_COMPLETED
  }

  /** `state | PARAMS_COMPLETED`. */
  function WithParams(state: nat): nat {
    if ParamsCompleted(state) then state else state + PARAMS_COMPLETED
  }

  lemma FlagsApart(state: nat)
    ensures InCompleted(WithIn(state)) && (ParamsCompleted(WithIn(state)) <==> ParamsCompleted(state))
    ensures ParamsCompleted(WithParams(state)) && (InCompleted(WithParams(state)) <==> InCompleted(state))
  {
  }

  /** A table entry: the flag bits and the shared pointer. */
  datatype Slot = Slot(state: nat, data: RequestData)

  /** The callbacks `_requestReadyCallbackFn` and `_emptyCallbackFn` are always the last thing a
      handler does; here the handler returns whether it makes the call, and the owner of the
      callbacks acts on it. */
  class ConnectionData {
    var requestMap: map<nat, Slot>
    ghost var table: Table

    /** Every request ever begun here. */
    ghost var objects: set<RequestData>

    constructor ()
      ensures Valid() && table == map[] && requestMap == map[] && objects == {}
    {
      requestMap, table, objects := map[], map[], {};
    }

    ghost function EntryAt(id: nat): Entry
      requires id in requestMap
      reads this, requestMap[id].data`stdin, requestMap[id].data`paramsBuffer, requestMap[id].data`paramsMap
    {
      var s := requestMap[id];
      Entry(s.data.serial, InCompleted(s.state), ParamsCompleted(s.state),
            s.data.stdin, s.data.paramsBuffer, s.data.paramsMap)
    }

    /** `table` is what the map and the requests amount to; no two ids share a request. */
    ghost predicate Valid()
      reads this, objects`stdin, objects`paramsBuffer, objects`paramsMap
    {
      && table.Keys == requestMap.Keys
      && (forall id :: id in requestMap ==> requestMap[id].data in objects && table[id] == EntryAt(id))
      && (forall id, k :: id in requestMap && k in requestMap && id != k ==> requestMap[id].data != requestMap[k].data)
    }

    method HandleBeginRequest(requestId: nat, noise: int, ghost serial: nat) returns (threw: bool)
      requires Valid()
      modifies this
      ensures Valid() && Effect(table, threw, false) == Apply(old(table), Begin(requestId, serial))
      ensures threw <==> requestId in old(requestMap)
      ensures threw ==> requestMap == old(requestMap) && objects == old(objects)
      ensures !threw ==> requestId in requestMap && fresh(requestMap[requestId].data)
                         && requestMap == old(requestMap)[requestId := requestMap[requestId]]
                         && requestMap[requestId].data.Output() == Replies.Output([], [], noise)
                         && requestMap[requestId].data.serial == serial
                         && objects == old(objects) + {requestMap[requestId].data}
    {
      if requestId in requestMap {
        return true;
      }
      var data := new RequestData(noise, serial);
      requestMap := requestMap[requestId := Slot(0, data)];
      table, objects := table[requestId := Fresh(serial)], objects + {data};
      threw := false;
      assert EntryAt(requestId) == Fresh(serial);
    }

    method Erase(requestId: nat)
      requires Valid() && requestId in requestMap
      modifies this`requestMap, this`table
      ensures Valid() && requestMap == old(requestMap) - {requestId} && table == old(table) - {requestId}
    {
      requestMap, table := requestMap - {requestId}, table - {requestId};
    }

    /** `checkForEmptyRequestMap` after the entry has gone. */
    method EraseAndCheck(requestId: nat) returns (empty: bool)
      requires Valid() && requestId in requestMap
      modifies this`requestMap, this`table
      ensures Valid() && requestMap == old(requestMap) - {requestId} && table == old(table) - {requestId}
      ensures empty <==> table == map[]
    {
      Erase(requestId);
      EmptyTable();
      empty := Size() == 0;
    }

    method HandleAbortRequest(requestId: nat) returns (threw: bool, empty: bool)
      requires Valid()
      modifies this`requestMap, this`table
      ensures Valid() && Effect(table, threw, false) == Apply(old(table), Abort(requestId))
      ensures empty <==> !threw && table == map[]
      ensures requestMap == old(requestMap) - {requestId}
    {
      if requestId !in requestMap {
        assert requestMap == requestMap - {requestId};
        return true, false;
      }
      threw := false;
      empty := EraseAndCheck(requestId);
    }

    /** Set a flag of a request. */
    method CompleteStdin(requestId: nat)
      requires Valid() && requestId in requestMap
      modifies this`requestMap, this`table
      ensures Valid() && SameObjects(old(requestMap))
      ensures table == old(table)[requestId := old(table)[requestId].(inDone := true)]
    {
      var slot := requestMap[requestId];
      FlagsApart(slot.state);
      requestMap := requestMap[requestId := slot.(state := WithIn(slot.state))];
      table := table[requestId := table[requestId].(inDone := true)];
    }

    method AppendStdin(requestId: nat, inBuffer: bytes)
      requires Valid() && requestId in requestMap
      modifies this`table, requestMap[requestId].data`stdin
      ensures Valid()
      ensures var e := old(table)[requestId];
        table == old(table)[requestId := e.(stdin := e.stdin + inBuffer)]
    {
      var data := requestMap[requestId].data;
      data.stdin := data.stdin + inBuffer;
      table := table[requestId := table[requestId].(stdin := data.stdin)];
    }

    method AppendParams(requestId: nat, inBuffer: bytes)
      requires Valid() && requestId in requestMap
      modifies this`table, requestMap[requestId].data`paramsBuffer
      ensures Valid()
      ensures var e := old(table)[requestId];
        table == old(table)[requestId := e.(paramsBuffer := e.paramsBuffer + inBuffer)]
    {
      var data := requestMap[requestId].data;
      data.paramsBuffer := data.paramsBuffer + inBuffer;
      table := table[requestId := table[requestId].(paramsBuffer := data.paramsBuffer)];
    }

    method ParseParams(requestId: nat)
      requires Valid() && requestId in requestMap
      modifies this`table, requestMap[requestId].data`paramsMap
      ensures Valid()
      ensures var e := old(table)[requestId];
        table == old(table)[requestId := e.(params := ParseInto(Low32(e.paramsBuffer), e.params))]
    {
      var data := requestMap[requestId].data;
      data.ParseFCGIParams();
      table := table[requestId := table[requestId].(params := data.paramsMap)];
    }

    method CompleteParams(requestId: nat)
      requires Valid() && requestId in requestMap
      modifies this`requestMap, this`table
      ensures Valid() && SameObjects(old(requestMap))
      ensures table == old(table)[requestId := old(table)[requestId].(paramsDone := true)]
    {
      var slot := requestMap[requestId];
      FlagsApart(slot.state);
      requestMap := requestMap[requestId := slot.(state := WithParams(slot.state))];
      table := table[requestId := table[requestId].(paramsDone := true)];
    }

    /** The parameters are parsed before their flag is set. */
    method EndParams(requestId: nat)
      requires Valid() && requestId in requestMap
      modifies this`requestMap, this`table, requestMap[requestId].data`paramsMap
      ensures Valid() && SameObjects(old(requestMap))
      ensures table == old(table)[requestId := TakeParams(old(table)[requestId], [])]
    {
      ParseParams(requestId);
      ghost var t := table;
      CompleteParams(requestId);
      Overwritten(old(table), requestId, t[requestId], TakeParams(old(table)[requestId], []));
    }

    method HandleStdin(requestId: nat, inBuffer: bytes) returns (threw: bool, ready: bool)
      requires Valid()
      modifies this`requestMap, this`table, (if requestId in requestMap then {requestMap[requestId].data} else {})`stdin
      ensures Valid() && Effect(table, threw, ready) == Apply(old(table), Stdin(requestId, inBuffer))
      ensures SameObjects(old(requestMap))
    {
      if requestId !in requestMap {
        return true, false;
      }
      if InCompleted(requestMap[requestId].state) {
        return true, false;
      }
      if |inBuffer| == 0 {
        CompleteStdin(requestId);
      } else {
        AppendStdin(requestId, inBuffer);
      }
      threw, ready := false, CheckForRequestReady(requestId);
    }

    method HandleParams(requestId: nat, inBuffer: bytes) returns (threw: bool, ready: bool)
      requires Valid()
      modifies this`requestMap, this`table
      modifies (if requestId in requestMap then {requestMap[requestId].data} else {})`paramsBuffer
      modifies (if requestId in requestMap then {requestMap[requestId].data} else {})`paramsMap
      ensures Valid() && Effect(table, threw, ready) == Apply(old(table), Params(requestId, inBuffer))
      ensures SameObjects(old(requestMap))
    {
      if requestId !in requestMap {
        return true, false;
      }
      if ParamsCompleted(requestMap[requestId].state) {
        return true, false;
      }
      if |inBuffer| == 0 {
        EndParams(requestId);
      } else {
        AppendParams(requestId, inBuffer);
      }
      threw, ready := false, CheckForRequestReady(requestId);
    }

    /** The assertion looks at the stdin flag only. */
    method CleanupRequest(requestId: nat) returns (threw: bool, asserted: bool, empty: bool)
      requires Valid()
      modifies this`requestMap, this`table
      ensures Valid()
      ensures asserted <==> requestId in old(table) && !old(table)[requestId].inDone
      ensures asserted ==> requestMap == old(requestMap) && table == old(table) && !threw && !empty
      ensures !asserted ==> Effect(table, threw, false) == Apply(old(table), Cleanup(requestId))
      ensures !asserted ==> requestMap == old(requestMap) - {requestId}
      ensures !asserted ==> (empty <==> !threw && table == map[])
    {
      if requestId !in requestMap {
        assert requestMap == requestMap - {requestId};
        return true, false, false;
      }
      if !InCompleted(requestMap[requestId].state) {
        return false, true, false;
      }
      threw, asserted := false, false;
      empty := EraseAndCheck(requestId);
    }

    method Clear()
      modifies this`requestMap, this`table
      ensures Valid() && table == map[] && requestMap == map[]
    {
      requestMap, table := map[], map[];
    }

    function Size(): nat
      reads this
    {
      |requestMap|
    }

    lemma EmptyTable()
      requires Valid()
      ensures Size() == 0 <==> table == map[]
    {
      assert table.Keys == {} <==> table == map[];
    }

    /** Identity, not equality of contents. */
    predicate IsValidRequest(requestId: nat, data: RequestData)
      reads this
    {
      requestId in requestMap && requestMap[requestId].data == data
    }

    predicate CheckForRequestReady(requestId: nat)
      requires requestId in requestMap
      reads this
    {
      ParamsCompleted(requestMap[requestId].state) && InCompleted(requestMap[requestId].state)
    }

    ghost predicate SameObjects(before: map<nat, Slot>)
      reads this
    {
      requestMap.Keys == before.Keys && forall id :: id in before ==> requestMap[id].data == before[id].data
    }
  }

  lemma Overwritten(t: Table, id: nat, e: Entry, e': Entry)
    ensures t[id := e][id := e'] == t[id := e']
  {
  }
}
