/** The default worker: a record of the services the worker manager hands
    it (index, cache, logger, task manager, HTTP client), with no-op
    lifecycle methods. A worker type of the application replaces `Init`
    and `Boot`; such a worker is described here by the answers those two
    give. */
module Workers {
  import opened Common
  import FileCache
  import Logs
  import TaskManager

  /** The HTTP client a worker is given; the client library is not part of
      this model, only the identity of the object. */
  class Client {
    constructor () {}
  }

  /** How a worker answers `Init` and `Boot`. The default worker's `Init`
      gives ("", nil) whatever the configuration, and its `Boot` gives nil. */
  datatype Behaviour =
    | Default
    | Custom(init: (seq<byte>, seq<string>) -> Result<string>, boot: Option<Error>)

  class Worker {
    var index: int
    var cache: FileCache.Cache?
    var logger: Logs.Logger?
    var taskManager: TaskManager.Manager?
    var client: Client?
    var filePath: string
    /** What `GetID` answers. The default worker draws a new random string on
        every call; the model fixes the answer per worker. */
    const id: string
    const behaviour: Behaviour

    constructor (id: string, behaviour: Behaviour)
      ensures this.id == id && this.behaviour == behaviour
      ensures index == 0 && cache == null && logger == null && taskManager == null && client == null
      ensures filePath == ""
    {
      this.id := id;
      this.behaviour := behaviour;
      index := 0;
      cache, logger, taskManager, client := null, null, null, null;
      filePath := "";
    }

    /** `Init`: parses the configuration and answers the worker's id. */
    function Init(data: seq<byte>, fileName: seq<string>): (r: Result<string>)
      ensures behaviour.Default? ==> r == Ok("")
      ensures behaviour.Custom? ==> r == behaviour.init(data, fileName)
    {
      match behaviour
      case Default => Ok("")
      case Custom(init, _) => init(data, fileName)
    }

    /** `Boot`. */
    function Boot(): (r: Option<Error>)
      ensures behaviour.Default? ==> r == None
      ensures behaviour.Custom? ==> r == behaviour.boot
    {
      match behaviour
      case Default => None
      case Custom(_, boot) => boot
    }

    /** `GetDetails`: the default worker has none. */
    function GetDetails(): (r: Option<nat>)
      ensures behaviour.Default? ==> r == None
    {
      None
    }

    function GetID(): (r: string)
      ensures r == id
    {
      id
    }

    method SetIndex(i: int)
      modifies this`index
      ensures index == i
    {
      index := i;
    }

    function Index(): (i: int)
      reads this`index
      ensures i == index
    {
      index
    }

    method SetCache(c: FileCache.Cache?)
      modifies this`cache
      ensures cache == c
    {
      cache := c;
    }

    function Cache(): (c: FileCache.Cache?)
      reads this`cache
      ensures c == cache
    {
      cache
    }

    method SetLogger(l: Logs.Logger?)
      modifies this`logger
      ensures logger == l
    {
      logger := l;
    }

    function Logger(): (l: Logs.Logger?)
      reads this`logger
      ensures l == logger
    {
      logger
    }

    method SetTaskManager(m: TaskManager.Manager?)
      modifies this`taskManager
      ensures taskManager == m
    {
      taskManager := m;
    }

    function TaskManager(): (tm: TaskManager.Manager?)
      reads this`taskManager
      ensures tm == taskManager
    {
      taskManager
    }

    method SetClient(c: Client?)
      modifies this`client
      ensures client == c
    {
      client := c;
    }

    function Client(): (c: Client?)
      reads this`client
      ensures c == client
    {
      client
    }

    /** `RegisterListeners`, `Start` and `Stop` of the default worker do nothing. */
    method RegisterListeners()
      ensures unchanged(this)
    {
    }

    method Start()
      ensures unchanged(this)
    {
    }

    method Stop()
      ensures unchanged(this)
    {
    }
  }
}
