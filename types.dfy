/** Values shared by the stream session and the timeline helpers. */
module Types {

  datatype Option<T> = None | Some(value: T)

  /**
   * One parsed log record: the mandatory millisecond timestamp `_time`
   * and the remaining key/value pairs, kept opaque as strings.
   */
  datatype LogEntry = LogEntry(time: int, fields: map<string, string>)
}
