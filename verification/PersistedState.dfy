/** A value kept in memory and mirrored to a file (cli/src/state.rs, 32-134). */
module PersistedState {
  import opened Common

  /** What the file holds: nothing readable, or a serialized value. */
  class Container<T> {
    const default: T
    var file: Option<T>
    var state: Option<T>

    constructor (default: T, file: Option<T>)
      ensures this.default == default && this.file == file && state == None
    {
      this.default, this.file, state := default, file, None;
    }

    /** The current value: the one in memory, else the file's, else the default. */
    function Value(): T
      reads this
    {
      if state.Some? then state.value else if file.Some? then file.value else default
    }

    method LoadOrGet() returns (r: T)
      modifies `state
      ensures r == old(Value()) && state == Some(r)
    {
      if state.Some? {
        return state.value;
      }
      r := if file.Some? then file.value else default;
      state := Some(r);
    }

    /** Memory first, then the file; a failed write leaves `leftover` in it. */
    method Save(newState: T, writeOk: bool, leftover: Option<T>) returns (ok: bool)
      modifies this
      ensures ok == writeOk
      ensures state == Some(newState) && Value() == newState
      ensures file == if writeOk then Some(newState) else leftover
    {
      state := Some(newState);
      if writeOk {
        file := Some(newState);
      } else {
        file := leftover;
      }
      return writeOk;
    }
  }
}
