/**
 * The hosted data backend, reduced to the outcomes the views observe.
 * Every select, insert, update, delete or count call is one round trip
 * whose answer is either rows (or a count) or an error; the model takes
 * that answer as a parameter instead of performing the call.
 */
module Backend {

  /** Answer of one backend call: the returned payload, or an error. */
  datatype Outcome<+T> = Ok(rows: T) | Err

  /** Answer of a write (insert, update, delete): only success matters. */
  type WriteOutcome = Outcome<()>

  datatype Option<+T> = None | Some(value: T)

  /** JavaScript truthiness of an optional string: absent and "" are falsy. */
  predicate Truthy(s: Option<string>)
  {
    s.Some? && s.value != ""
  }

  /**
   * The list a view holds after `if (!error && data) setRows(data)`:
   * a successful select replaces the list wholesale, an error keeps it.
   */
  function AfterFetch<T>(current: seq<T>, result: Outcome<seq<T>>): (r: seq<T>)
    ensures result.Err? ==> r == current
    ensures result.Ok? ==> r == result.rows
  {
    match result
    case Ok(rows) => rows
    case Err => current
  }

  /**
   * The list a public page shows after
   * `if (!error && data && data.length > 0) set(data) else set(defaults)`:
   * live rows when there are any, the built-in placeholders otherwise.
   */
  function WithFallback<T>(result: Outcome<seq<T>>, defaults: seq<T>): (r: seq<T>)
    ensures r == defaults || (result.Ok? && r == result.rows)
    ensures result.Ok? && |result.rows| > 0 ==> r == result.rows
    ensures result.Err? || result.rows == [] ==> r == defaults
    ensures |defaults| > 0 ==> |r| > 0
  {
    if result.Ok? && |result.rows| > 0 then result.rows else defaults
  }
}
