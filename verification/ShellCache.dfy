/**
 * The service worker's cache of the application shell: one page, the list of its build's
 * files, and the files, through deploys and runs stopped at any `await`.
 */
module ShellCache {
  import opened Shared

  /** A page is its text; `Named` are the files under `assets/` its text names. */
  type Names = string -> set<string>

  datatype Cache = Cache(page: Option<string>, list: Option<set<string>>, files: set<string>)

  /** Where a run of `storeShell` stands between two awaits; `build` is `shell.json`, if it was to be had. */
  datatype Phase =
    | Idle
    | Adding(html: string, build: Option<set<string>>, files: set<string>)
    | Listing(html: string, build: Option<set<string>>, files: set<string>, current: Option<set<string>>)
    | Paging(html: string, build: Option<set<string>>, files: set<string>, current: Option<set<string>>)
    | Dropping(left: set<string>)

  /** `drawn` are the files the cached page was stored with. */
  datatype State = State(cache: Cache, phase: Phase, drawn: set<string>)

  datatype Event =
    | Begin(html: string, build: Option<set<string>>)
    | AddFile(file: string)
    | AddsDone
    | WriteList
    | WritePage
    | DropFile(file: string)
    | Stop
    | Asset(file: string)

  function FilesOf(names: Names, html: string, build: Option<set<string>>): set<string> {
    names(html) + if build.Some? then build.value else {}
  }

  function Step(names: Names, s: State, e: Event): State {
    var c, p := s.cache, s.phase;
    match e
    case Begin(html, build) =>
      if p.Idle? && (build.Some? ==> names(html) <= build.value)
      then s.(phase := Adding(html, build, FilesOf(names, html, build))) else s
    case AddFile(file) =>
      if p.Adding? && file in p.files then s.(cache := c.(files := c.files + {file})) else s
    case AddsDone =>
      if !p.Adding? || !(p.files <= c.files) then s
      else if c.page == Some(p.html) then
        if p.build.None? then s.(phase := Idle)
        else s.(phase := Idle, cache := c.(list := Some(p.files)), drawn := p.files)
      else s.(phase := Listing(p.html, p.build, p.files, if c.page.None? then Some({}) else c.list))
    case WriteList =>
      if !p.Listing? then s
      else s.(cache := c.(list := if p.build.None? then None else Some(p.files)),
              phase := Paging(p.html, p.build, p.files, p.current))
    case WritePage =>
      if !p.Paging? then s
      else s.(cache := c.(page := Some(p.html)), drawn := p.files,
              phase := if p.current.None? || p.build.None? then Idle
                       else Dropping(c.files - p.files - p.current.value))
    case DropFile(file) =>
      if p.Dropping? && file in p.left
      then s.(cache := c.(files := c.files - {file}), phase := Dropping(p.left - {file})) else s
    case Stop => s.(phase := Idle)
    case Asset(file) => s.(cache := c.(files := c.files + {file}))
  }

  function Run(names: Names, s: State, events: seq<Event>): State
    decreases |events|
  {
    if events == [] then s else Run(names, Step(names, s, events[0]), events[1..])
  }

  // ---------------------------------------------------------------- what every step keeps

  /** The cached page has all its files, and so has whatever version the list is of. */
  ghost predicate Whole(names: Names, s: State) {
    && (s.cache.page.Some? ==> names(s.cache.page.value) <= s.drawn <= s.cache.files)
    && (s.cache.list.Some? ==> s.cache.list.value <= s.cache.files)
  }

  ghost predicate RunStands(names: Names, s: State) {
    match s.phase
    case Idle => true
    case Adding(html, build, files) => names(html) <= files && (build.None? ==> files == names(html))
    case Listing(html, build, files, current) =>
      && names(html) <= files <= s.cache.files
      && s.cache.page != Some(html) && (current.Some? ==> current.value <= s.cache.files)
    case Paging(html, build, files, current) =>
      && names(html) <= files <= s.cache.files
      && (build.Some? ==> s.cache.list == Some(files)) && (build.None? ==> s.cache.list == None)
    case Dropping(left) =>
      && s.cache.page.Some? && left !! s.drawn
      && s.cache.list == Some(s.drawn)
  }

  ghost predicate Inv(names: Names, s: State) {
    Whole(names, s) && RunStands(names, s)
  }

  lemma {:induction false} StepKeepsInv(names: Names, s: State, e: Event)
    requires Inv(names, s)
    ensures Inv(names, Step(names, s, e))
  {
  }

  /**
   * Over any deploys and any runs, each stopped wherever it may be: every file the cached
   * page was stored with - those it names and the rest of its build - is in the cache, and
   * so is every file of the stored list.
   */
  lemma {:induction false} CachedPageIsWhole(names: Names, s: State, events: seq<Event>)
    requires Inv(names, s)
    ensures Inv(names, Run(names, s, events)) && Whole(names, Run(names, s, events))
    decreases |events|
  {
    hide Step, RunStands;
    if events != [] {
      StepKeepsInv(names, s, events[0]);
      CachedPageIsWhole(names, Step(names, s, events[0]), events[1..]);
    }
  }

  function Empty(): State {
    State(Cache(None, None, {}), Idle, {})
  }

  lemma {:induction false} EmptyIsWhole(names: Names)
    ensures Inv(names, Empty())
  {
  }

  lemma {:induction false} OneMoreFile(names: Names, s: State, file: string)
    requires Inv(names, s) && s.phase.Idle?
    ensures Inv(names, s.(cache := s.cache.(files := s.cache.files + {file})))
  {
  }

  // ---------------------------------------------------------------- a switch that completes

  /** What a run that meets no obstacle leaves: the cache after its last `await`. */
  function Stored(names: Names, c: Cache, html: string, build: Option<set<string>>): Cache {
    var files := FilesOf(names, html, build);
    if build.Some? && !(names(html) <= build.value) then c
    else
      var added := c.files + files;
      if c.page == Some(html) then c.(files := added, list := if build.None? then c.list else Some(files))
      else
        var current := if c.page.None? then Some({}) else c.list;
        Cache(Some(html), if build.None? then None else Some(files),
              if current.None? || build.None? then added else added * (files + current.value))
  }

  /**
   * What a completed run is for: a build without the page's files is refused; otherwise
   * the page is cached with the files it names and the rest of its build, and the list is
   * that build's - unknown, if the build was not to be had for a new page.
   */
  lemma {:induction false} StoredSays(names: Names, c: Cache, html: string, build: Option<set<string>>)
    ensures FilesOf(names, html, build) == if build.Some? then names(html) + build.value else names(html)
    ensures build.Some? && !(names(html) <= build.value) ==> Stored(names, c, html, build) == c
    ensures (build.Some? ==> names(html) <= build.value) ==>
              var after := Stored(names, c, html, build);
              && after.page == Some(html) && names(html) <= after.files
              && (build.Some? ==> build.value <= after.files && after.list == Some(build.value))
              && (build.None? ==> after.list == if c.page == Some(html) then c.list else None)
              && after.files <= c.files + names(html) + (if build.Some? then build.value else {})
              && (c.page == Some(html) || c.page == None || c.list == None || build == None ==>
                    c.page.None? || c.files <= after.files)
              && (c.page.None? && build.Some? ==> after.files == build.value * (c.files + build.value))
  {
    if build.Some? && names(html) <= build.value { assert names(html) + build.value == build.value; }
  }

  /**
   * A completed switch keeps the version it replaces exactly when that version's files
   * are in the stored list or shared with the new one - always, when the list is of the
   * version the page draws, or there is none - and keeps the new one in any case.
   */
  lemma {:induction false} SwitchKeepsTheReplacedIff(names: Names, s: State, html: string, build: set<string>)
    requires Inv(names, s) && s.cache.page.Some? && s.cache.page != Some(html) && names(html) <= build
    ensures var after := Stored(names, s.cache, html, Some(build));
            && after.page == Some(html) && build <= after.files && after.list == Some(build)
            && (s.drawn <= after.files <==> s.cache.list.None? || s.drawn <= build + s.cache.list.value)
            && (s.cache.list == Some(s.drawn) ==> s.drawn <= after.files)
  {
    assert FilesOf(names, html, Some(build)) == build;
  }

  /** Without the new version's own list nothing is dropped now, and nothing by the switch after it. */
  lemma {:induction false} UnknownListDropsNothing(names: Names, c: Cache, html: string, next: string, build: Option<set<string>>)
    requires c.page != Some(html) && next != html
    ensures var after := Stored(names, c, html, None);
            c.files <= after.files && after.files <= Stored(names, after, next, build).files
  {
  }

  /**
   * An interrupted switch can cost a drawn page its own lazy screens: stopped between the
   * list and the page, the list is the new version's already, and the switch made next
   * drops the files only the drawn version has.
   */
  lemma {:induction false} InterruptedSwitchDropsDrawnFiles()
    ensures exists names: Names, s: State, html: string, build: set<string> ::
              var stopped := Run(names, s, [Begin(html, Some(build)), AddFile("b"), AddsDone, WriteList, Stop]);
              && Inv(names, s) && s.cache.list == Some(s.drawn) && s.cache.page.Some?
              && stopped.cache.page == s.cache.page && s.drawn <= stopped.cache.files
              && !(s.drawn <= Stored(names, stopped.cache, html, Some(build)).files)
  {
    var names: Names := (html: string) => {};
    var s := State(Cache(Some("A"), Some({"a"}), {"a"}), Idle, {"a"});
    var build := {"b"};
    var rest := [AddFile("b"), AddsDone, WriteList, Stop];
    var s1 := First(names, s, [Begin("B", Some(build))] + rest);
    assert s1.phase == Adding("B", Some(build), {"b"}) by { assert {} + build == {"b"}; }
    var s2 := First(names, s1, rest);
    assert rest[1..] == [AddsDone, WriteList, Stop];
    var s3 := First(names, s2, rest[1..]);
    assert rest[2..] == [WriteList, Stop];
    var s4 := First(names, s3, rest[1..][1..]);
    var s5 := First(names, s4, rest[1..][1..][1..]);
    assert s5.cache == Cache(Some("A"), Some({"b"}), {"a", "b"});
    assert Run(names, s, [Begin("B", Some(build))] + rest) == s5;
    assert [Begin("B", Some(build))] + rest == [Begin("B", Some(build)), AddFile("b"), AddsDone, WriteList, Stop];
    assert FilesOf(names, "B", Some(build)) == {"b"};
    assert "a" !in Stored(names, s5.cache, "B", Some(build)).files;
    assert Inv(names, s);
  }

  lemma {:induction false} First(names: Names, s: State, events: seq<Event>) returns (t: State)
    requires events != []
    ensures t == Step(names, s, events[0]) && Run(names, s, events) == Run(names, t, events[1..])
    ensures Run(names, t, []) == t
  {
    t := Step(names, s, events[0]);
  }

  // ---------------------------------------------------------------- storeShell itself

  class Shell {
    const names: Names
    var page: Option<string>
    var list: Option<set<string>>
    var files: set<string>
    ghost var drawn: set<string>

    ghost function Now(): Cache
      reads this
    {
      Cache(page, list, files)
    }

    ghost predicate Valid()
      reads this
    {
      Inv(names, State(Now(), Idle, drawn))
    }

    constructor (names: Names)
      ensures Valid() && Now() == Empty().cache && this.names == names
    {
      this.names := names;
      page, list, files, drawn := None, None, {}, {};
    }

    /**
     * Each file not cached yet; `left` is how many writes remain before the worker is
     * stopped. `did` are the machine's events, from the state `at`.
     */
    method AddFiles(wanted: set<string>, writes: nat, ghost at: State) returns (left: nat, completed: bool, ghost did: seq<Event>)
      requires at.phase.Adding? && at.phase.files == wanted && at.cache == Now() && at.drawn == drawn
      modifies this`files
      ensures Run(names, at, did) == at.(cache := Now()) && OwnEvents(did)
      ensures old(files) <= files <= old(files) + wanted && (completed ==> files == old(files) + wanted)
      ensures writes >= |wanted| ==> completed && left >= writes - |wanted|
    {
      hide Step, Run, OwnEvents;
      left, completed, did := writes, true, [];
      NothingDone(names, at);
      NoEvents();
      var missing := wanted - files;
      FewerFiles(missing, wanted);
      while missing != {}
        invariant HasAdded(old(files), wanted, files, missing)
        invariant Run(names, at, did) == at.(cache := Now()) && OwnEvents(did)
        invariant |missing| <= |wanted| && writes <= left + |wanted| - |missing|
        decreases |missing|
      {
        if left == 0 {
          AddingSays(old(files), wanted, files, missing);
          return left, false, did;
        }
        left := left - 1;
        var file :| file in missing;
        AddedOne(old(files), wanted, files, missing, file);
        hide HasAdded;
        OneMore(names, at, did, AddFile(file));
        AddsFile(names, at.(cache := Now()), file);
        OwnEvent(AddFile(file));
        BothOwn(did, [AddFile(file)]);
        did := did + [AddFile(file)];
        files := files + {file};
        missing := missing - {file};
      }
      AddingSays(old(files), wanted, files, missing);
    }

    /** Everything but `kept`, one by one. */
    method DropFiles(kept: set<string>, writes: nat, ghost at: State) returns (completed: bool, ghost did: seq<Event>)
      requires at.phase == Dropping(files - kept) && at.cache == Now() && at.drawn == drawn
      modifies this`files
      ensures Run(names, at, did) == at.(cache := Now(), phase := Dropping(files - kept)) && OwnEvents(did)
      ensures completed ==> files == old(files) * kept
      ensures writes >= |old(files)| ==> completed
    {
      hide Step, Run, OwnEvents;
      var left := writes;
      completed, did := true, [];
      NothingDone(names, at);
      NoEvents();
      var dropped := files - kept;
      FewerFiles(dropped, files);
      while dropped != {}
        invariant HasDropped(old(files), kept, files, dropped)
        invariant Run(names, at, did) == at.(cache := Now(), phase := Dropping(dropped)) && OwnEvents(did)
        invariant |dropped| <= |old(files)| && writes <= left + |old(files)| - |dropped|
        decreases |dropped|
      {
        if left == 0 {
          DroppingSays(old(files), kept, files, dropped);
          return false, did;
        }
        left := left - 1;
        var file :| file in dropped;
        DroppedOne(old(files), kept, files, dropped, file);
        hide HasDropped;
        OneMore(names, at, did, DropFile(file));
        DropsFile(names, at.(cache := Now(), phase := Dropping(dropped)), file);
        OwnEvent(DropFile(file));
        BothOwn(did, [DropFile(file)]);
        did := did + [DropFile(file)];
        files := files - {file};
        dropped := dropped - {file};
      }
      DroppingSays(old(files), kept, files, dropped);
    }

    /** The switch of a run whose files are all there: the list, the page, and what no version needs any more. */
    method Switch(html: string, build: Option<set<string>>, wanted: set<string>, writes: nat,
                  ghost start: State, ghost begin: Event, ghost at: State, ghost before: seq<Event>)
      returns (completed: bool, ghost did: seq<Event>)
      requires Inv(names, start) && Run(names, start, [begin] + before) == at && OwnEvents(before)
      requires at == State(Now(), Listing(html, build, wanted, if page.None? then Some({}) else list), drawn)
      requires wanted <= files
      modifies this
      ensures State(Now(), Idle, drawn) == Run(names, start, [begin] + did + [Stop]) && Valid() && OwnEvents(did)
      ensures (page == old(page) && drawn == old(drawn) && files == old(files)) || (page == Some(html) && drawn == wanted)
      ensures completed ==>
                var current := if old(page).None? then Some({}) else old(list);
                Now() == Cache(Some(html), if build.None? then None else Some(wanted),
                               if current.None? || build.None? then old(files) else old(files) * (wanted + current.value))
      ensures writes >= |old(files)| + 2 ==> completed
    {
      hide Run, Inv, OwnEvents;
      completed, did := false, before;
      ghost var s := at;
      var current := if page.None? then Some({}) else list;
      if writes == 0 {
        Ends(names, start, begin, did, s);
        return;
      }
      list := if build.None? then None else Some(wanted);
      OwnEvent(WriteList);
      s, did := Goes(names, start, begin, did, s, WriteList);
      if writes == 1 {
        Ends(names, start, begin, did, s);
        return;
      }
      page, drawn := Some(html), wanted;
      OwnEvent(WritePage);
      s, did := Goes(names, start, begin, did, s, WritePage);
      if current.None? || build.None? {
        Ends(names, start, begin, did, s);
        return true, did;
      }
      assert files - wanted - current.value == files - (wanted + current.value);
      ghost var more;
      completed, more := DropFiles(wanted + current.value, writes - 2, s);
      ghost var dropped := s.(cache := Now(), phase := Dropping(files - (wanted + current.value)));
      GoesOn(names, start, begin, did, s, more, dropped);
      BothOwn(did, more);
      s, did := dropped, did + more;
      Ends(names, start, begin, did, s);
    }

    /**
     * One run; `writes` is how many writes to the cache it gets to make before the worker
     * is stopped. It is a run of the machine, so stopped or not the cache stays whole; a
     * page it did cache has all files of its build; given enough writes it completes, and
     * then the cache is what a run without obstacles leaves.
     */
    method StoreShell(html: string, build: Option<set<string>>, writes: nat)
      returns (completed: bool, ghost did: seq<Event>)
      requires Valid()
      modifies this
      ensures Valid() && (page == old(page) || page == Some(html))
      ensures State(Now(), Idle, drawn)
              == Run(names, State(old(Now()), Idle, old(drawn)), [Begin(html, build)] + did + [Stop])
      ensures OwnEvents(did)
      ensures page != old(page) ==> drawn == FilesOf(names, html, build)
      ensures page == old(page) ==> old(files) <= files
      ensures completed ==> Now() == Stored(names, old(Now()), html, build)
      ensures writes >= 2 * |FilesOf(names, html, build)| + |old(files)| + 2 ==> completed
    {
      hide Run, Inv, OwnEvents;
      ghost var start := State(Now(), Idle, drawn);
      ghost var begin := Begin(html, build);
      ghost var at := Step(names, start, begin);
      did := [];
      Begins(names, start, begin);
      NoEvents();
      if build.Some? && !(names(html) <= build.value) {
        Ends(names, start, begin, did, at);
        return true, did;
      }
      var wanted := FilesOf(names, html, build);
      var left;
      left, completed, did := AddFiles(wanted, writes, at);
      GoesOn(names, start, begin, [], at, did, at.(cache := Now()));
      assert [] + did == did;
      at := at.(cache := Now());
      if !completed || (page == Some(html) && build.Some? && left == 0) {
        Ends(names, start, begin, did, at);
        return false, did;
      }
      UnionIsSmaller(old(files), wanted);
      if page == Some(html) && build.Some? { list, drawn := Some(wanted), wanted; }
      OwnEvent(AddsDone);
      at, did := Goes(names, start, begin, did, at, AddsDone);
      if page == Some(html) {
        Ends(names, start, begin, did, at);
      } else {
        completed, did := Switch(html, build, wanted, left, start, begin, at, did);
      }
    }

    /**
     * A built file is served from the cache, or fetched; only a good answer is kept, and
     * one that could not be kept is served all the same.
     */
    method AssetResponse(file: string, online: bool, good: bool, putFails: bool) returns (served: bool)
      requires Valid()
      modifies this
      ensures Valid() && page == old(page) && list == old(list)
      ensures served <==> file in old(files) || online
      ensures files == if online && good && !putFails then old(files) + {file} else old(files)
    {
      if file in files { return true; }
      if !online { return false; }
      if good && !putFails {
        OneMoreFile(names, State(Now(), Idle, drawn), file);
        files := files + {file};
      }
      return true;
    }
  }

  // ---------------------------------------------------------------- a run of the machine, event by event

  /** Events of a run under way: it neither begins another nor is its an asset's. */
  ghost predicate OwnEvents(did: seq<Event>) {
    forall i :: 0 <= i < |did| ==> !did[i].Begin? && !did[i].Asset? && !did[i].Stop?
  }

  lemma {:induction false} OwnEvent(e: Event)
    requires !e.Begin? && !e.Asset? && !e.Stop?
    ensures OwnEvents([e])
  {
  }

  lemma {:induction false} NoEvents()
    ensures OwnEvents([])
  {
  }

  lemma {:induction false} BothOwn(a: seq<Event>, b: seq<Event>)
    requires OwnEvents(a) && OwnEvents(b)
    ensures OwnEvents(a + b)
  {
  }

  lemma {:induction false} Begins(names: Names, s: State, begin: Event)
    ensures Run(names, s, [begin] + []) == Step(names, s, begin)
  {
    assert [begin] + [] == [begin];
    assert Run(names, Step(names, s, begin), []) == Step(names, s, begin);
  }

  lemma {:induction false} NothingDone(names: Names, s: State)
    ensures Run(names, s, []) == s
  {
  }

  lemma {:induction false} RunAppend(names: Names, s: State, a: seq<Event>, b: seq<Event>)
    ensures Run(names, s, a + b) == Run(names, Run(names, s, a), b)
    decreases |a|
  {
    if a == [] {
      assert a + b == b;
    } else {
      assert (a + b)[1..] == a[1..] + b;
      RunAppend(names, Step(names, s, a[0]), a[1..], b);
    }
  }

  lemma {:induction false} OneMore(names: Names, s: State, did: seq<Event>, e: Event)
    ensures Run(names, s, did + [e]) == Step(names, Run(names, s, did), e)
  {
    hide Step;
    RunAppend(names, s, did, [e]);
    var t := Run(names, s, did);
    assert Run(names, t, [e]) == Run(names, Step(names, t, e), []);
  }

  lemma {:induction false} GoesOn(names: Names, start: State, begin: Event, did: seq<Event>, at: State, more: seq<Event>, next: State)
    requires Run(names, start, [begin] + did) == at && Run(names, at, more) == next
    ensures Run(names, start, [begin] + (did + more)) == next
  {
    RunAppend(names, start, [begin] + did, more);
    assert [begin] + (did + more) == [begin] + did + more;
  }

  lemma {:induction false} Goes(names: Names, start: State, begin: Event, did: seq<Event>, at: State, e: Event)
    returns (next: State, done: seq<Event>)
    requires Run(names, start, [begin] + did) == at && OwnEvents(did) && OwnEvents([e])
    ensures done == did + [e] && next == Step(names, at, e)
    ensures Run(names, start, [begin] + done) == next && OwnEvents(done)
  {
    next, done := Step(names, at, e), did + [e];
    OneMore(names, start, [begin] + did, e);
    assert [begin] + done == [begin] + did + [e];
  }

  /** Wherever it is stopped, what it leaves is whole. */
  lemma {:induction false} Ends(names: Names, start: State, begin: Event, did: seq<Event>, at: State)
    requires Inv(names, start) && Run(names, start, [begin] + did) == at
    ensures Run(names, start, [begin] + did + [Stop]) == at.(phase := Idle)
    ensures Inv(names, at.(phase := Idle))
  {
    OneMore(names, start, [begin] + did, Stop);
    CachedPageIsWhole(names, start, [begin] + did + [Stop]);
  }

  lemma {:induction false} AddsFile(names: Names, s: State, file: string)
    requires s.phase.Adding? && file in s.phase.files
    ensures Step(names, s, AddFile(file)) == s.(cache := s.cache.(files := s.cache.files + {file}))
  {
  }

  lemma {:induction false} DropsFile(names: Names, s: State, file: string)
    requires s.phase.Dropping? && file in s.phase.left
    ensures Step(names, s, DropFile(file))
            == s.(cache := s.cache.(files := s.cache.files - {file}), phase := Dropping(s.phase.left - {file}))
  {
  }

  /** How far a run is with adding the files it wants, and with dropping what is not kept. */
  ghost predicate HasAdded(before: set<string>, wanted: set<string>, now: set<string>, missing: set<string>) {
    missing == wanted - now && before <= now <= before + wanted
  }

  ghost predicate HasDropped(before: set<string>, kept: set<string>, now: set<string>, dropped: set<string>) {
    dropped == now - kept && before * kept <= now <= before
  }

  lemma {:induction false} AddedOne(before: set<string>, wanted: set<string>, now: set<string>, missing: set<string>, file: string)
    requires HasAdded(before, wanted, now, missing) && file in missing
    ensures file in wanted && HasAdded(before, wanted, now + {file}, missing - {file})
  {
  }

  lemma {:induction false} AddingSays(before: set<string>, wanted: set<string>, now: set<string>, missing: set<string>)
    requires HasAdded(before, wanted, now, missing)
    ensures before <= now <= before + wanted && (missing == {} ==> now == before + wanted)
  {
    assert wanted <= now + missing;
  }

  lemma {:induction false} DroppedOne(before: set<string>, kept: set<string>, now: set<string>, dropped: set<string>, file: string)
    requires HasDropped(before, kept, now, dropped) && file in dropped
    ensures HasDropped(before, kept, now - {file}, dropped - {file})
  {
  }

  lemma {:induction false} DroppingSays(before: set<string>, kept: set<string>, now: set<string>, dropped: set<string>)
    requires HasDropped(before, kept, now, dropped)
    ensures dropped == now - kept && (dropped == {} ==> now == before * kept)
  {
    assert now <= kept + dropped;
  }

  lemma {:induction false} FewerFiles(a: set<string>, b: set<string>)
    requires a <= b
    ensures |a| <= |b|
  {
    assert b == a + (b - a);
  }

  lemma {:induction false} UnionIsSmaller(a: set<string>, b: set<string>)
    ensures |a + b| <= |a| + |b|
  {
    assert a + b == a + (b - a);
    FewerFiles(b - a, b);
  }
}
