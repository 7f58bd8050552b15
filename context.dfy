/** The module-global event buffer of notbook/context.py.  `_exec_context`
    is either `None` or a Python list that `append` grows in place; `get`
    hands out that very list, so whoever holds it sees later appends.  The
    list is therefore an object of its own (`PyList`) and the module global a
    nullable reference to it. */
module Context {
  import opened Util

  /** A Python list that is appended to in place. */
  class PyList<T> {
    var items: seq<T>

    /** `[]` */
    constructor ()
      ensures items == []
    {
      items := [];
    }

    /** `list.append` */
    method Add(x: T)
      modifies this
      ensures items == old(items) + [x]
    {
      items := items + [x];
    }
  }

  /** The `AssertionError('context not prepared')` of `append`. */
  datatype ContextError = NotPrepared

  /** The module's state: the global `_exec_context`. */
  class ExecContext<T> {
    var current: PyList?<T>

    /** Import of the module: `_exec_context = None`, so nothing is active
        and `get()` returns `None`. */
    constructor ()
      ensures !IsActive() && Get() == null
    {
      current := null;
    }

    /** `is_active` */
    predicate IsActive()
      reads this
    {
      current != null
    }

    /** `get`: the list itself, not a copy. */
    function Get(): PyList?<T>
      reads this
    {
      current
    }

    /** `activate`: a fresh empty list replaces whatever was collected. */
    method Activate()
      modifies this
      ensures IsActive() && fresh(Get()) && Get().items == []
    {
      current := new PyList();
    }

    /** `append`: the assertion fails unless `activate` ran; otherwise the
        object goes at the end of the active list and nothing else changes. */
    method Append(obj: T) returns (r: Result<(), ContextError>)
      modifies current
      ensures current == old(current)
      ensures old(current) == null ==> r == Err(NotPrepared)
      ensures old(current) != null ==> r == Ok(()) && current.items == old(current.items) + [obj]
    {
      if current == null {
        return Err(NotPrepared);
      }
      current.Add(obj);
      return Ok(());
    }
  }

  /** What a reader of `get()` sees: the list taken right after `activate`
      holds, after two appends, exactly the two objects in order; and an
      `activate` before it discards anything appended earlier. */
  method CollectTwo<T>(stale: T, x: T, y: T) returns (seen: seq<T>, before: Result<(), ContextError>)
    ensures before == Err(NotPrepared)
    ensures seen == [x, y]
  {
    var ctx := new ExecContext<T>();
    before := ctx.Append(stale);
    ctx.Activate();
    var r0 := ctx.Append(stale);
    ctx.Activate();
    var held := ctx.Get();
    var r1 := ctx.Append(x);
    var r2 := ctx.Append(y);
    seen := held.items;
  }
}
