/** The worker manager: an ordered registry of workers. `Add` builds a
    worker, lets it parse its configuration, rejects an id that is already
    registered, hands the worker its services, boots it and appends it;
    `Load` adds one worker per configuration file and then orders the
    registry by index. Lifecycle calls and published events are recorded
    in one trace, in the order they happen. */
module Workman {
  import opened Common
  import opened Paths
  import Str
  import GoStrings
  import Sorting
  import FileCache
  import Logs
  import TaskManager
  import opened Workers

  const TopicAddRemove: string := "worker.add_remove"
  const TopicLoad: string := "workers.load"

  /** The payloads published on the event bus. */
  datatype Payload =
    | AddRemove(added: bool, removed: bool, worker: Worker)
    | Update(workers: seq<Worker>)

  datatype Event =
    | Dispatched(topic: string, payload: Payload)
    | ListenersRegistered(worker: Worker)
    | Booted(worker: Worker)
    | Stopped(worker: Worker)

  /** What the builder gives on one call: a new worker's id and behaviour. */
  datatype Made = Made(id: string, behaviour: Behaviour)

  /** The position of the first worker with the id, or -1. */
  function FirstWithId(ws: seq<Worker>, id: string): (k: int)
    ensures -1 <= k < |ws|
    ensures k >= 0 ==> ws[k].id == id
    ensures forall j | 0 <= j < |ws| && (k < 0 || j < k) :: ws[j].id != id
    decreases |ws|
  {
    if ws == [] then -1
    else if ws[0].id == id then 0
    else
      var k := FirstWithId(ws[1..], id);
      if k < 0 then -1 else k + 1
  }

  /** Workers ordered by index. */
  predicate OrderedByIndex(ws: seq<Worker>)
    reads set w | w in ws
  {
    forall i, j | 0 <= i < j < |ws| :: ws[i].index <= ws[j].index
  }

  /** `w` is the worker made by the `n`-th call of the builder. */
  ghost predicate MadeBy(w: Worker, builder: Option<nat -> Made>, n: nat) {
    builder.Some? && w.id == builder.value(n).id && w.behaviour == builder.value(n).behaviour
  }

  /** `w` is the worker `Load` registered for the file at `path`: the file
      was read, its configuration accepted and the worker booted. */
  predicate LoadedFile(w: Worker, path: string, read: string -> Result<seq<byte>>) {
    read(path).Ok? && w.Init(read(path).value, [path]).Ok? && w.Boot().None?
  }

  /** Why loading the file at `path` failed with `e`, when `known` are the
      workers registered before it and `failed` the worker built for it (if
      any): the read failed, no builder is set, the configuration was
      rejected, it names a registered worker, or the boot failed. */
  predicate FailsWith(builder: Option<nat -> Made>, failed: Worker?, path: string, read: string -> Result<seq<byte>>,
                      known: seq<Worker>, e: Error)
  {
    if read(path).Err? then failed == null && e == read(path).error
    else if builder.None? then failed == null && e == Msg("worker type is not set")
    else
      failed != null &&
      var init := failed.Init(read(path).value, [path]);
      if init.Err? then e == init.error
      else if FirstWithId(known, init.value) >= 0 then e == Msg("worker already exists")
      else failed.Boot() == Some(e)
  }

  /** The events `Add` publishes for a worker it registers: its listeners,
      its boot, and one add event. */
  function Joined(w: Worker): seq<Event> {
    [ListenersRegistered(w), Booted(w), Dispatched(TopicAddRemove, AddRemove(true, false, w))]
  }

  /** The events of registering the workers one after another. */
  function Published(ws: seq<Worker>): seq<Event>
    decreases |ws|
  {
    if ws == [] then [] else Joined(ws[0]) + Published(ws[1..])
  }

  /** Registering workers publishes three events per worker and never a
      Load event, so the Load event of a successful `Load` is its only one. */
  lemma {:induction false} PublishedEvents(ws: seq<Worker>)
    ensures |Published(ws)| == 3 * |ws|
    ensures forall e | e in Published(ws) :: e.Dispatched? ==> e.topic == TopicAddRemove
    decreases |ws|
  {
    if ws != [] {
      PublishedEvents(ws[1..]);
    }
  }

  /** Registering one more worker appends its events. */
  lemma {:induction false} PublishedSnoc(ws: seq<Worker>, w: Worker)
    ensures Published(ws + [w]) == Published(ws) + Joined(w)
    decreases |ws|
  {
    if ws != [] {
      assert (ws + [w])[1..] == ws[1..] + [w];
      PublishedSnoc(ws[1..], w);
    }
  }

  /** The events a failed load of the file at `path` leaves behind: the
      listeners and the boot of `failed` when its boot was the failure,
      and nothing when the failure came earlier. */
  function FailedEvents(failed: Worker?, path: string, read: string -> Result<seq<byte>>, known: seq<Worker>): seq<Event> {
    if failed != null && read(path).Ok? && failed.Init(read(path).value, [path]).Ok? &&
       FirstWithId(known, failed.Init(read(path).value, [path]).value) < 0
    then [ListenersRegistered(failed), Booted(failed)]
    else []
  }

  /** The directory under which a worker's cache and logs live. */
  function WorkerCacheDir(cachePath: string, id: string): string {
    JoinPath([cachePath, "_workers", id])
  }

  class Manager {
    var isDebug: bool
    var rootPath: string
    var workersDir: string
    var workersExt: string
    /** The worker builder given to `NewManager`; each call yields a new
        worker, described by the number of earlier calls. */
    const builder: Option<nat -> Made>
    var builds: nat
    var workers: seq<Worker>
    var trace: seq<Event>
    /** Set only by `NewManager`, to nil: the selection code of `Next` is
        commented out in the source. */
    const selectedWorker: Worker? := null

    /** `NewManager`. */
    constructor (builder: Option<nat -> Made>)
      ensures this.builder == builder && builds == 0
      ensures workers == [] && trace == []
      ensures workersDir == "workers" && workersExt == ".json" && rootPath == "" && !isDebug
    {
      this.builder := builder;
      builds := 0;
      workers := [];
      trace := [];
      workersDir := "workers";
      workersExt := ".json";
      rootPath := "";
      isDebug := false;
    }

    method SetDebug(debug: bool)
      modifies this`isDebug
      ensures isDebug == debug
    {
      isDebug := debug;
    }

    method SetWorkersDir(path: string)
      modifies this`workersDir
      ensures workersDir == path
    {
      workersDir := path;
    }

    /** `SetExtension` keeps only the letters and digits of `ext`, after a dot. */
    method SetExtension(ext: string)
      modifies this`workersExt
      ensures workersExt == "." + Str.Strip(ext)
      ensures workersExt[0] == '.' && forall i | 1 <= i < |workersExt| :: Str.IsWordChar(workersExt[i])
    {
      workersExt := "." + Str.Strip(ext);
    }

    method SetRootPath(path: string)
      modifies this`rootPath
      ensures rootPath == path
    {
      rootPath := path;
    }

    /** The cache directory: "cache" under the cleaned root. */
    function CachePath(): (p: string)
      reads this`rootPath
    {
      JoinPath([rootPath, "cache"])
    }

    /** `CachePath` is "cache" appended to the cleaned root. */
    lemma CachePathUnderRoot()
      ensures CachePath() == Extend(Clean(rootPath), "cache")
    {
      assert NoSeparator("cache");
      FileCache.JoinPathTwo(rootPath, "cache");
    }

    /** The workers directory: for a plain directory name, that name under
        the cleaned root. */
    function GetWorkersPath(): (p: string)
      reads this`rootPath, this`workersDir
      ensures Plain(workersDir) ==> p == Extend(Clean(rootPath), workersDir)
    {
      if Plain(workersDir) then FileCache.JoinPathTwo(rootPath, workersDir); JoinPath([rootPath, workersDir])
      else JoinPath([rootPath, workersDir])
    }

    /** The file of worker `id`: when the root or the directory is set and
        the file name is a plain element, it lies directly in the workers
        directory. */
    function GetWorkerFilePath(id: string): (p: string)
      reads this`rootPath, this`workersDir, this`workersExt
      ensures (rootPath != "" || workersDir != "") && Plain(id + workersExt) ==> p == Extend(GetWorkersPath(), id + workersExt)
    {
      if (rootPath != "" || workersDir != "") && Plain(id + workersExt) then
        WorkerFileInWorkersPath(rootPath, workersDir, id + workersExt);
        JoinPath([rootPath, workersDir, id + workersExt])
      else JoinPath([rootPath, workersDir, id + workersExt])
    }

    /** The pattern `Load` hands to the file-system glob. */
    function LoadPattern(): (p: string)
      reads this`rootPath, this`workersDir, this`workersExt
    {
      JoinPath([rootPath, workersDir, "*" + workersExt])
    }

    /** `Next` and `SelectedWorker`: the selected worker, which is always nil. */
    function Next(): (w: Worker?)
      ensures w == null
    {
      selectedWorker
    }

    function SelectedWorker(): (w: Worker?)
      ensures w == null
    {
      selectedWorker
    }

    function Workers(): (ws: seq<Worker>)
      reads this`workers
      ensures ws == workers
    {
      workers
    }

    /** `WorkersCount`: the number of registered workers. */
    function WorkersCount(): (n: int)
      reads this`workers
      ensures n == |Workers()|
    {
      |workers|
    }

    /** `Get`: the first worker whose `GetID` is `id`. */
    method Get(id: string) returns (w: Worker?, found: bool)
      ensures found <==> FirstWithId(workers, id) >= 0
      ensures found ==> w == workers[FirstWithId(workers, id)]
      ensures !found ==> w == null
    {
      var k := 0;
      while k < |workers|
        invariant 0 <= k <= |workers|
        invariant forall j | 0 <= j < k :: workers[j].id != id
      {
        if workers[k].GetID() == id {
          assert FirstWithId(workers, id) == k;
          return workers[k], true;
        }
        k := k + 1;
      }
      return null, false;
    }

    /** `Add`. `built` is the worker the builder made, whether it was kept or not. */
    method Add(index: int, data: seq<byte>, fileName: seq<string>) returns (w: Worker?, err: Option<Error>, ghost built: Worker?)
      modifies this`builds, this`workers, this`trace
      ensures builder.None? ==>
        w == null && built == null && err == Some(Msg("worker type is not set")) &&
        builds == old(builds) && workers == old(workers) && trace == old(trace)
      ensures builder.Some? ==>
        built != null && fresh(built) && builds == old(builds) + 1 &&
        built.id == builder.value(old(builds)).id && built.behaviour == builder.value(old(builds)).behaviour
      // The configuration is rejected, or names a registered worker: nothing is registered or published.
      ensures builder.Some? && built.Init(data, fileName).Err? ==>
        w == null && err == Some(built.Init(data, fileName).error) && workers == old(workers) && trace == old(trace)
      ensures builder.Some? && built.Init(data, fileName).Ok? && FirstWithId(old(workers), built.Init(data, fileName).value) >= 0 ==>
        w == null && err == Some(Msg("worker already exists")) && workers == old(workers) && trace == old(trace)
      // Otherwise the worker gets its services; listeners are registered before it boots.
      ensures builder.Some? && built.Init(data, fileName).Ok? && FirstWithId(old(workers), built.Init(data, fileName).value) < 0 ==>
        built.index == index &&
        built.taskManager != null && fresh(built.taskManager) && built.taskManager.items == [] &&
        built.client != null && fresh(built.client) &&
        built.cache != null && fresh(built.cache) && built.cache.root == WorkerCacheDir(CachePath(), built.id) &&
        built.cache.extension == "txt" &&
        built.logger != null && fresh(built.logger) && built.logger.rootPath == WorkerCacheDir(CachePath(), built.id)
      // A failed boot leaves the worker out; a successful one appends it and publishes one event.
      ensures builder.Some? && built.Init(data, fileName).Ok? && FirstWithId(old(workers), built.Init(data, fileName).value) < 0 ==>
        if built.Boot().Some? then
          w == null && err == built.Boot() && workers == old(workers) &&
          trace == old(trace) + [ListenersRegistered(built), Booted(built)]
        else
          w == built && err == None && workers == old(workers) + [built] &&
          trace == old(trace) + [ListenersRegistered(built), Booted(built),
                                 Dispatched(TopicAddRemove, AddRemove(true, false, built))]
    {
      if builder.None? {
        return null, Some(Msg("worker type is not set")), null;
      }
      var worker := Build();
      built := worker;
      var init := worker.Init(data, fileName);
      if init.Err? {
        return null, Some(init.error), built;
      }
      var _, known := Get(init.value);
      if known {
        return null, Some(Msg("worker already exists")), built;
      }
      Equip(worker, index);
      err := Enlist(worker);
      w := if err.None? then worker else null;
    }

    /** One call of the builder. */
    method Build() returns (worker: Worker)
      requires builder.Some?
      modifies this`builds
      ensures fresh(worker) && builds == old(builds) + 1
      ensures worker.id == builder.value(old(builds)).id && worker.behaviour == builder.value(old(builds)).behaviour
    {
      var made := builder.value(builds);
      builds := builds + 1;
      worker := new Worker(made.id, made.behaviour);
    }

    /** The services `Add` hands a new worker: its index, a fresh task
        manager and client, and a cache and a logger rooted in the worker's
        own directory under the cache path. */
    method Equip(worker: Worker, index: int)
      modifies worker
      ensures worker.index == index
      ensures worker.taskManager != null && fresh(worker.taskManager) && worker.taskManager.items == []
      ensures worker.client != null && fresh(worker.client)
      ensures worker.cache != null && fresh(worker.cache) && worker.cache.extension == "txt" &&
        worker.cache.root == WorkerCacheDir(CachePath(), worker.id)
      ensures worker.logger != null && fresh(worker.logger) &&
        worker.logger.rootPath == WorkerCacheDir(CachePath(), worker.id)
    {
      worker.SetIndex(index);
      var tm := new TaskManager.Manager();
      worker.SetTaskManager(tm);
      var client := new Client();
      worker.SetClient(client);
      var cachePath := WorkerCacheDir(CachePath(), worker.GetID());
      var fileCache := new FileCache.Cache();
      fileCache.SetRoot(cachePath);
      worker.SetCache(fileCache);
      var l := new Logs.Logger();
      var _ := l.SetRootPath(cachePath);
      worker.SetLogger(l);
    }

    /** Registers the listeners, boots, and on success appends and publishes. */
    method Enlist(worker: Worker) returns (err: Option<Error>)
      modifies this`workers, this`trace
      ensures err == worker.Boot()
      ensures err.Some? ==> workers == old(workers) && trace == old(trace) + [ListenersRegistered(worker), Booted(worker)]
      ensures err.None? ==>
        workers == old(workers) + [worker] &&
        trace == old(trace) + [ListenersRegistered(worker), Booted(worker),
                               Dispatched(TopicAddRemove, AddRemove(true, false, worker))]
    {
      worker.RegisterListeners();
      trace := trace + [ListenersRegistered(worker)];
      err := worker.Boot();
      trace := trace + [Booted(worker)];
      if err.None? {
        workers := workers + [worker];
        trace := trace + [Dispatched(TopicAddRemove, AddRemove(true, false, worker))];
      }
    }

    /** `Remove`: stops and removes the first worker with the id. The answer is always true. */
    method Remove(id: string) returns (ok: bool)
      modifies this`workers, this`trace
      ensures ok
      ensures FirstWithId(old(workers), id) < 0 ==> workers == old(workers) && trace == old(trace)
      ensures FirstWithId(old(workers), id) >= 0 ==>
        var k := FirstWithId(old(workers), id);
        workers == old(workers)[..k] + old(workers)[k + 1..] &&
        trace == old(trace) + [Stopped(old(workers)[k]), Dispatched(TopicAddRemove, AddRemove(false, true, old(workers)[k]))]
    {
      var k := 0;
      while k < |workers|
        invariant 0 <= k <= |workers|
        invariant workers == old(workers) && trace == old(trace)
        invariant forall j | 0 <= j < k :: workers[j].id != id
      {
        var worker := workers[k];
        if worker.GetID() == id {
          assert FirstWithId(workers, id) == k;
          worker.Stop();
          trace := trace + [Stopped(worker)];
          workers := workers[..k] + workers[k + 1..];
          trace := trace + [Dispatched(TopicAddRemove, AddRemove(false, true, worker))];
          return true;
        }
        k := k + 1;
      }
      return true;
    }

    /** `Load`. The glob's answer and the file reads are inputs: `files` is
        what the glob of `LoadPattern()` gave, `read` what reading a file gave.
        `added` are the workers this call registered, in file order. */
    method Load(files: Result<seq<string>>, read: string -> Result<seq<byte>>)
      returns (err: Option<Error>, ghost added: seq<Worker>, ghost failed: Worker?)
      modifies this`builds, this`workers, this`trace
      ensures files.Err? ==> err == Some(files.error) && workers == old(workers) && trace == old(trace)
      ensures files.Ok? && files.value == [] ==>
        err == Some(Msg("no worker file found at " + rootPath)) && workers == old(workers) && trace == old(trace)
      // Worker i was built by the builder's next call for file i, and accepted and booted.
      ensures files.Ok? ==> |added| <= |files.value|
      ensures forall i | 0 <= i < |added| :: fresh(added[i]) && added[i].index == i
      ensures files.Ok? ==> forall i | 0 <= i < |added| ::
        LoadedFile(added[i], files.value[i], read) && MadeBy(added[i], builder, old(builds) + i)
      ensures failed == null ==> builds == old(builds) + |added|
      ensures failed != null ==> fresh(failed) && builds == old(builds) + |added| + 1 && MadeBy(failed, builder, old(builds) + |added|)
      // The first failing file ends the loop with its error; the workers added before it stay, in order, unsorted.
      ensures err.Some? ==> workers == old(workers) + added
      ensures files.Ok? && files.value != [] && err.Some? ==>
        |added| < |files.value| && FailsWith(builder, failed, files.value[|added|], read, old(workers) + added, err.value) &&
        trace == old(trace) + Published(added) + FailedEvents(failed, files.value[|added|], read, old(workers) + added)
      // On success each worker's events come in file order, then one Load event with the sorted registry.
      ensures err.None? ==>
        files.Ok? && |added| == |files.value| && failed == null &&
        multiset(workers) == multiset(old(workers) + added) &&
        OrderedByIndex(workers) &&
        trace == old(trace) + Published(added) + [Dispatched(TopicLoad, Update(workers))]
    {
      added, failed := [], null;
      if files.Err? {
        return Some(files.error), added, failed;
      }
      var paths := files.value;
      if |paths| == 0 {
        return Some(Msg("no worker file found at " + rootPath)), added, failed;
      }
      err, added, failed := AddAll(paths, read);
      if err.Some? {
        return err, added, failed;
      }
      if |workers| == 0 {
        return Some(Msg("no worker found")), added, failed;
      }
      var sorted := OrderedWorkers();
      workers := sorted;
      trace := trace + [Dispatched(TopicLoad, Update(workers))];
      return None, added, failed;
    }

    /** The loop of `Load`: each file is read and registered in turn; the
        first failure ends it. */
    method AddAll(paths: seq<string>, read: string -> Result<seq<byte>>)
      returns (err: Option<Error>, ghost added: seq<Worker>, ghost failed: Worker?)
      modifies this`builds, this`workers, this`trace
      ensures workers == old(workers) + added
      ensures |added| <= |paths|
      ensures forall i | 0 <= i < |added| :: fresh(added[i]) && added[i].index == i
      ensures forall i | 0 <= i < |added| :: LoadedFile(added[i], paths[i], read) && MadeBy(added[i], builder, old(builds) + i)
      ensures failed == null ==> builds == old(builds) + |added|
      ensures failed != null ==> fresh(failed) && builds == old(builds) + |added| + 1 && MadeBy(failed, builder, old(builds) + |added|)
      ensures err.None? ==> |added| == |paths| && failed == null
      ensures err.Some? ==> |added| < |paths| && FailsWith(builder, failed, paths[|added|], read, old(workers) + added, err.value)
      ensures err.None? ==> trace == old(trace) + Published(added)
      ensures err.Some? ==> trace == old(trace) + Published(added) + FailedEvents(failed, paths[|added|], read, old(workers) + added)
    {
      added, failed := [], null;
      var i := 0;
      while i < |paths|
        invariant 0 <= i <= |paths|
        invariant |added| == i
        invariant workers == old(workers) + added
        invariant builds == old(builds) + i
        invariant trace == old(trace) + Published(added)
        invariant forall j | 0 <= j < i :: fresh(added[j]) && added[j].index == j
        invariant forall j | 0 <= j < i :: LoadedFile(added[j], paths[j], read) && MadeBy(added[j], builder, old(builds) + j)
      {
        var w, e, built := LoadOne(i, paths[i], read);
        if e.Some? {
          return e, added, built;
        }
        PublishedSnoc(added, w);
        added := added + [w];
        i := i + 1;
      }
      return None, added, failed;
    }

    /** One turn of `Load`'s loop: read the file at `path` and add its worker
        under index `i`. */
    method LoadOne(i: int, path: string, read: string -> Result<seq<byte>>) returns (w: Worker?, err: Option<Error>, ghost built: Worker?)
      modifies this`builds, this`workers, this`trace
      ensures err.Some? ==> w == null && trace == old(trace) + FailedEvents(built, path, read, old(workers))
      ensures err.None? ==>
        w != null && w == built && fresh(w) && w.index == i && LoadedFile(w, path, read) && MadeBy(w, builder, old(builds)) &&
        builds == old(builds) + 1 && workers == old(workers) + [w]
      ensures err.None? ==> trace == old(trace) + Joined(w)
      ensures err.Some? ==> workers == old(workers) && FailsWith(builder, built, path, read, old(workers), err.value)
      ensures err.Some? && built == null ==> builds == old(builds)
      ensures err.Some? && built != null ==> fresh(built) && builds == old(builds) + 1 && MadeBy(built, builder, old(builds))
    {
      var content := read(path);
      if content.Err? {
        return null, Some(content.error), null;
      }
      w, err, built := Add(i, content.value, [path]);
    }

    /** `Reload` loads again. */
    method Reload(files: Result<seq<string>>, read: string -> Result<seq<byte>>)
      returns (err: Option<Error>, ghost added: seq<Worker>, ghost failed: Worker?)
      modifies this`builds, this`workers, this`trace
      ensures files.Err? ==> err == Some(files.error) && workers == old(workers) && trace == old(trace)
      ensures files.Ok? && files.value == [] ==>
        err == Some(Msg("no worker file found at " + rootPath)) && workers == old(workers) && trace == old(trace)
      // Worker i was built by the builder's next call for file i, and accepted and booted.
      ensures files.Ok? ==> |added| <= |files.value|
      ensures forall i | 0 <= i < |added| :: fresh(added[i]) && added[i].index == i
      ensures files.Ok? ==> forall i | 0 <= i < |added| ::
        LoadedFile(added[i], files.value[i], read) && MadeBy(added[i], builder, old(builds) + i)
      ensures failed == null ==> builds == old(builds) + |added|
      ensures failed != null ==> fresh(failed) && builds == old(builds) + |added| + 1 && MadeBy(failed, builder, old(builds) + |added|)
      // The first failing file ends the loop with its error; the workers added before it stay, in order, unsorted.
      ensures err.Some? ==> workers == old(workers) + added
      ensures files.Ok? && files.value != [] && err.Some? ==>
        |added| < |files.value| && FailsWith(builder, failed, files.value[|added|], read, old(workers) + added, err.value) &&
        trace == old(trace) + Published(added) + FailedEvents(failed, files.value[|added|], read, old(workers) + added)
      // On success each worker's events come in file order, then one Load event with the sorted registry.
      ensures err.None? ==>
        files.Ok? && |added| == |files.value| && failed == null &&
        multiset(workers) == multiset(old(workers) + added) &&
        OrderedByIndex(workers) &&
        trace == old(trace) + Published(added) + [Dispatched(TopicLoad, Update(workers))]
    {
      err, added, failed := Load(files, read);
    }

    /** The `sort.Slice` call of `Load`: the workers ordered by index, ties in no promised order. */
    method OrderedWorkers() returns (sorted: seq<Worker>)
      ensures multiset(sorted) == multiset(workers)
      ensures OrderedByIndex(sorted)
    {
      var indices := map w | w in workers :: w.index;
      var key := (w: Worker) => if w in indices then indices[w] else 0;
      sorted := Sorting.SortBy(workers, key);
      Sorting.SameMembers(sorted, workers);
      forall i, j | 0 <= i < j < |sorted| ensures sorted[i].index <= sorted[j].index {
        assert key(sorted[i]) <= key(sorted[j]);
      }
    }
  }

  /** The file of a worker lies in the workers directory: joining a root,
      a directory (not both empty) and a plain file name extends the join of
      the first two by the file name. */
  lemma WorkerFileInWorkersPath(a: string, b: string, c: string)
    requires (a != "" || b != "") && Plain(c)
    ensures JoinPath([a, b, c]) == Extend(JoinPath([a, b]), c)
  {
    var sep := [Separator];
    assert GoStrings.Join([b, c], sep) == b + sep + c by { assert [b, c][1..] == [c]; }
    assert GoStrings.Join([a, b, c], sep) == GoStrings.Join([a, b], sep) + sep + c by {
      assert [a, b, c][1..] == [b, c];
      assert [a, b][1..] == [b];
    }
    if a != "" {
      CleanExtend(GoStrings.Join([a, b], sep), c);
    } else {
      assert [a, b, c][1..] == [b, c] && [a, b][1..] == [b];
      CleanExtend(b, c);
    }
  }
}
