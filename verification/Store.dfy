// The runtime database: serialized transactions that commit or restore.
module Store {
  import opened Common

  class RuntimeStore<T> {
    var connected: bool
    var tables: T
    var saved: Option<T>  // what a rollback restores, while a transaction is open

    constructor (initial: T)
      ensures connected && tables == initial && saved == None
    {
      connected, tables, saved := true, initial, None;
    }

    // Entering `transaction()`; on a closed store it raises.
    method Begin() returns (ok: bool)
      requires saved == None
      modifies this`saved
      ensures ok == connected
      ensures saved == if ok then Some(tables) else None
    {
      ok := connected;
      if ok { saved := Some(tables); }
    }

    method Commit()
      requires saved.Some?
      modifies this`saved
      ensures saved == None
    {
      saved := None;
    }

    method Rollback()
      requires saved.Some?
      modifies this`saved, this`tables
      ensures saved == None && tables == old(saved).value
    {
      tables, saved := saved.value, None;
    }
  }
}
