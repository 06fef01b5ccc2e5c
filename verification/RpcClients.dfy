/** The two gRPC clients, whose one method each borrows a stub, calls, and gives the stub back. */
module RpcClients {
  import opened Pools
  import opened Handlers

  /** What the stub's call comes to: a status that is not ok, or the service's own error field. */
  datatype RpcStatus = NotOk | Ok(error: int)

  /** How a client call ends; `NullCall` is the call on the null that a stopped pool gives. */
  datatype RpcEnd = Sleeps | NullCall | Error(code: int)

  class RpcClient {
    const pool: GrpcConnectionPool

    constructor (pool: GrpcConnectionPool)
      ensures this.pool == pool
    {
      this.pool := pool;
    }

    /** The stub goes back exactly once whether the call went well or not. */
    method Invoke(status: RpcStatus) returns (e: RpcEnd)
      modifies pool`connections
      ensures e == if old(pool.connections) == [] then Sleeps
                   else if pool.stop || old(pool.connections)[0].None? then NullCall
                   else Error(if status.NotOk? then 1002 else status.error)
      ensures e.Error? ==> pool.connections == old(pool.connections)[1..] + [old(pool.connections)[0]]
      ensures e.Sleeps? || pool.stop ==> pool.connections == old(pool.connections)
    {
      var g := pool.GetConnection();
      if g.Blocks? { return Sleeps; }
      var stub := g.con;
      if stub.None? { return NullCall; }
      if status.Ok? {
        pool.ReturnConnection(stub);
        return Error(status.error);
      } else {
        pool.ReturnConnection(stub);
        return Error(Wire(RPCFailed));
      }
    }
  }
}
