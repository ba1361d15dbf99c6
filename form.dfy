/** One request form: its data and header maps (which may be nil), its HTTP
    method, the name it was registered under and the error its body gave
    when serialised. Map values are of any type; `None` is Go's nil value. */
module Form {
  import opened Common

  class Form<A> {
    var data: Option<map<string, Option<A>>>
    var headers: Option<map<string, Option<A>>>
    var httpMethod: string
    var name: string
    var error: Option<Error>

    /** A form as decoded from its file, not yet registered. */
    constructor (data: Option<map<string, Option<A>>>, headers: Option<map<string, Option<A>>>, httpMethod: string)
      ensures this.data == data && this.headers == headers && this.httpMethod == httpMethod
      ensures name == [] && error.None?
    {
      this.data := data;
      this.headers := headers;
      this.httpMethod := httpMethod;
      name := [];
      error := None;
    }

    /** `GetName`. */
    function GetName(): (n: string)
      reads this
      ensures n == name
    {
      name
    }

    /** `DataItem`: the value stored under the key, nil included; for a key
        that is not stored (or a nil map), the first default, or nil when
        no default is given. */
    function DataItem(key: string, defaults: seq<Option<A>>): (v: Option<A>)
      reads this
      ensures data.Some? && key in data.value ==> v == data.value[key]
      ensures !(data.Some? && key in data.value) && |defaults| > 0 ==> v == defaults[0]
      ensures !(data.Some? && key in data.value) && defaults == [] ==> v.None?
    {
      var value := if |defaults| > 0 then defaults[0] else None;
      if data.Some? && key in data.value then data.value[key] else value
    }

    /** `SetHeader`: a nil map is created first; only that key is set. */
    method SetHeader(key: string, value: Option<A>)
      modifies this`headers
      ensures headers.Some?
      ensures old(headers).Some? ==> headers.value == old(headers).value[key := value]
      ensures old(headers).None? ==> headers.value == map[key := value]
    {
      var m := if headers.Some? then headers.value else map[];
      headers := Some(m[key := value]);
    }

    /** `IsError`. */
    function IsError(): (b: bool)
      reads this
      ensures b <==> error.Some?
    {
      error.Some?
    }
  }
}
