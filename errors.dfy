/** Failure-carrying results and the error conditions the metric service raises.
    Each `Error` stands for one `throw new Error(...)` of the service; `Message`
    gives the text the service puts in that error. */
module Errors {

  datatype Option<+T> = None | Some(value: T)

  datatype Result<+T> = Ok(value: T) | Err(error: Error) {
    predicate IsFailure() { Err? }

    function PropagateFailure<U>(): Result<U>
      requires Err?
    {
      Err(error)
    }

    function Extract(): T
      requires Ok?
    {
      value
    }
  }

  /** All the values of `rs` when every one succeeded, else the first failure. */
  function Collect<T>(rs: seq<Result<T>>): (r: Result<seq<T>>)
    ensures r.Ok? <==> forall i :: 0 <= i < |rs| ==> rs[i].Ok?
    ensures r.Ok? ==> |r.value| == |rs| && forall i :: 0 <= i < |rs| ==> r.value[i] == rs[i].value
    ensures r.Err? ==> exists i :: 0 <= i < |rs| && rs[i].Err? && r.error == rs[i].error
                                   && forall j :: 0 <= j < i ==> rs[j].Ok?
  {
    if |rs| == 0 then Ok([])
    else
      var rest := Collect(rs[1..]);
      assert forall i :: 1 <= i < |rs| ==> rs[i] == rs[1..][i - 1];
      if rs[0].Err? then Err(rs[0].error)
      else if rest.Err? then
        var k :| 0 <= k < |rs[1..]| && rs[1..][k].Err? && rest.error == rs[1..][k].error
                 && forall j :: 0 <= j < k ==> rs[1..][j].Ok?;
        assert rs[k + 1].Err? && forall j :: 0 <= j < k + 1 ==> rs[j].Ok?;
        Err(rest.error)
      else Ok([rs[0].value] + rest.value)
  }

  datatype Error =
    | InvalidUnit(unit: string, metricType: string)   // Unit constructor
    | InvalidTimezoneFormat(timezone: string)          // Timezone constructor
    | InvalidDateFormat(text: string)                  // Timezone.parseToUTC, no parser accepted the text
    | InvalidTimezone(timezone: string)                // Timezone.parseToUTC, the zone does not resolve
    | InvalidTimeValue                                 // date-fns format of an instant in a zone that does not resolve
    | UserIdRequired                                   // Metric.validate
    | ValueNegative                                    // Metric.validate
    | TimestampInvalid                                 // Metric.validate

  /** The message text of each error, as the service writes it. */
  function Message(e: Error): string {
    match e
    case InvalidUnit(u, t) => "Invalid unit '" + u + "' for metric type '" + t + "'"
    case InvalidTimezoneFormat(z) => "Invalid IANA timezone format: " + z
    case InvalidDateFormat(s) => "Invalid date format: " + s
    case InvalidTimezone(z) => "Invalid IANA timezone: " + z
    case InvalidTimeValue => "Invalid time value"
    case UserIdRequired => "UserId is required"
    case ValueNegative => "Value cannot be negative"
    case TimestampInvalid => "Timestamp must be valid"
  }
}
