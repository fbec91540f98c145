/** Optional values and dictionary entries. */
module Common {

  datatype Option<+T> = None | Some(value: T) {
    function GetOr(default: T): T {
      match this
      case Some(v) => v
      case None => default
    }
  }

  /** One key of a Python dictionary that may be missing, may hold `None`, or
      may hold a value: `d.get(key, default)` tells the first two apart. */
  datatype Field<+T> = Absent | Null | Present(value: T) 
}
