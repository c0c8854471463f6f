/** Optional values, used for the optional query parameters and for parse results. */
module Wrappers {
  datatype Option<+T> = None | Some(value: T) {
    function GetOr(default: T): T {
      match this
      case Some(v) => v
      case None => default
    }
  }
}

/**
 * The records kept in the two logs. A record is a JSON object: a dictionary
 * from field names to values. Only the distinctions the tracker looks at are kept.
 */
module Records {
  import opened Wrappers

  /**
   * A JSON value stored under a field.
   * - `Null` is JSON null.
   * - `Stamp(t)` is the value of a `time` field that the timestamp parser accepts, once
   *   its `Z` is removed, as an instant without a UTC offset: `t`, counted in
   *   microseconds. The ISO-8601 strings `append_event` writes (with a trailing `Z`)
   *   are of this kind. Only the `time` field is parsed, so only there is this
   *   distinction made; two such strings for the same instant are one value here.
   * - `Str(s)` is any other string, and every string in a field other than `time`.
   * - `Other` is a number, a boolean, an array or a nested object.
   */
  datatype Value = Null | Str(s: string) | Stamp(t: int) | Other

  type Record = map<string, Value>

  /** The clock's resolution is one microsecond. */
  const MicrosPerMinute: int := 60_000_000

  /** `dict.get(key)`: a missing key reads as null. */
  function Get(r: Record, key: string): (v: Value)
    ensures key !in r ==> v == Null
    ensures key in r ==> v == r[key]
  {
    if key in r then r[key] else Null
  }

  /** An optional string parameter as a JSON value: None is stored as null. */
  function OptStr(o: Option<string>): (v: Value)
    ensures v == Null <==> o.None?
    ensures o.Some? ==> v == Str(o.value)
  {
    match o
    case None => Null
    case Some(s) => Str(s)
  }

  /**
   * The instant in a record's `time` field, or None when the field is missing
   * or its value is not a timestamp the parser accepts.
   */
  function TimeOf(r: Record): (t: Option<int>)
    ensures t.Some? <==> "time" in r && r["time"].Stamp?
    ensures t.Some? ==> r["time"] == Stamp(t.value)
  {
    match Get(r, "time")
    case Stamp(t) => Some(t)
    case _ => None
  }

  /**
   * The record as `append_event` stores it: a `time` field holding `now` is added
   * only when the record has no `time` field; every other field is kept.
   */
  function Stamped(obj: Record, now: int): (r: Record)
    ensures r.Keys == obj.Keys + {"time"}
    ensures forall k :: k in obj ==> r[k] == obj[k]
    ensures "time" !in obj ==> r["time"] == Stamp(now) && TimeOf(r) == Some(now)
  {
    if "time" in obj then obj else obj["time" := Stamp(now)]
  }

  /** What the request tells about the client: its User-Agent header and address. */
  datatype Client = Client(userAgent: Option<string>, remoteAddr: Option<string>)

  /** The `pixel_open` event `api_img` builds before appending it. */
  function PixelOpenEvent(email: string, messageId: Option<string>, imageParam: Option<string>, client: Client): (r: Record)
    ensures Get(r, "type") == Str("pixel_open")
    ensures Get(r, "email") == Str(email) && Get(r, "message_id") == OptStr(messageId)
    ensures Get(r, "image_param") == OptStr(imageParam)
    ensures "time" !in r
  {
    map["type" := Str("pixel_open"), "email" := Str(email), "message_id" := OptStr(messageId),
        "image_param" := OptStr(imageParam), "user_agent" := OptStr(client.userAgent),
        "remote_addr" := OptStr(client.remoteAddr)]
  }

  /** The `click` event `api_click` builds before appending it. */
  function ClickEvent(email: string, redirect: string, messageId: Option<string>, client: Client): (r: Record)
    ensures Get(r, "type") == Str("click")
    ensures Get(r, "email") == Str(email) && Get(r, "message_id") == OptStr(messageId)
    ensures Get(r, "redirect") == Str(redirect)
    ensures "time" !in r
  {
    map["type" := Str("click"), "email" := Str(email), "message_id" := OptStr(messageId),
        "redirect" := Str(redirect), "user_agent" := OptStr(client.userAgent),
        "remote_addr" := OptStr(client.remoteAddr)]
  }
}
