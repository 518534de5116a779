/**
 * The preview server's state (internal/preview/server.go): the bounded history of
 * screenshot paths with the latest one, and the bounded list of live viewers, each
 * a buffered queue of event strings. Every handler's locked section is one step.
 * A viewer's channel is an identity (`ChanId`) with its buffered messages in
 * `queues` and its closed state in `closed`; file removals are kept in the ghost
 * log `deleted`, browser launches in the ghost count `windowsOpened`.
 */
module Preview {
  import opened Wrappers
  import Decimal

  const MAX_HISTORY_SIZE: nat := 50
  const MAX_CLIENTS: nat := 5
  /** The buffer size of every viewer's channel. */
  const CLIENT_QUEUE_CAPACITY: nat := 10
  const SUCCESS_BODY: string := "{\"success\": true}"
  /** The event `ShowInBrowser` broadcasts. */
  const UPDATE_EVENT: string := "update"

  type ChanId = nat

  // ---------------------------------------------------------------- history

  /** What one append does to the history: the new list and the path it evicted. */
  datatype Append = Append(history: seq<string>, evicted: Option<string>)

  /**
   * `ShowInBrowser`'s update of the history: the path goes last and, when the
   * list then holds more than 50, the oldest entry is dropped.
   */
  function AppendImage(history: seq<string>, path: string): (r: Append)
    ensures r.history != [] && r.history[|r.history| - 1] == path
    ensures |history| <= MAX_HISTORY_SIZE ==> |r.history| <= MAX_HISTORY_SIZE
    ensures r.evicted.Some? <==> |history| >= MAX_HISTORY_SIZE
    ensures r.evicted.None? ==> r.history == history + [path]
    ensures OptionToSeq(r.evicted) + r.history == history + [path]
  {
    var grown := history + [path];
    if |grown| > MAX_HISTORY_SIZE then
      assert [grown[0]] + grown[1..] == grown;
      Append(grown[1..], Some(grown[0]))
    else Append(grown, None)
  }

  /** The history and the list of evicted paths after appending `paths` one by one. */
  function AppendAll(history: seq<string>, paths: seq<string>): (seq<string>, seq<string>)
  {
    if paths == [] then (history, [])
    else
      var before := AppendAll(history, paths[..|paths| - 1]);
      var step := AppendImage(before.0, paths[|paths| - 1]);
      (step.history, before.1 + OptionToSeq(step.evicted))
  }

  /** Appending loses and duplicates nothing: evicted paths, then survivors, are the input in order. */
  lemma {:induction false} AppendAllConserves(history: seq<string>, paths: seq<string>)
    ensures var (kept, evicted) := AppendAll(history, paths); evicted + kept == history + paths
  {
    if paths != [] {
      var init := paths[..|paths| - 1];
      AppendAllConserves(history, init);
      var before := AppendAll(history, init);
      var step := AppendImage(before.0, paths[|paths| - 1]);
      ConservedStep(history, paths, before.0, before.1, OptionToSeq(step.evicted), step.history);
    }
  }

  /** The list algebra of one step of AppendAllConserves. */
  lemma ConservedStep(history: seq<string>, paths: seq<string>, kept: seq<string>, evicted: seq<string>,
                      out: seq<string>, survivors: seq<string>)
    requires paths != []
    requires evicted + kept == history + paths[..|paths| - 1]
    requires out + survivors == kept + [paths[|paths| - 1]]
    ensures (evicted + out) + survivors == history + paths
  {
    calc {
      (evicted + out) + survivors;
      evicted + (kept + [paths[|paths| - 1]]);
      history + paths[..|paths| - 1] + [paths[|paths| - 1]];
      { assert paths[..|paths| - 1] + [paths[|paths| - 1]] == paths; }
      history + paths;
    }
  }

  /**
   * From an empty history, N appends leave the last min(N, 50) paths and evict
   * the first max(0, N - 50), oldest first.
   */
  lemma {:induction false} AppendAllFromEmpty(paths: seq<string>)
    ensures var n := |paths|;
            var dropped := if n > MAX_HISTORY_SIZE then n - MAX_HISTORY_SIZE else 0;
            AppendAll([], paths) == (paths[dropped..], paths[..dropped])
  {
    var n := |paths|;
    if n > 0 {
      var init := paths[..n - 1];
      AppendAllFromEmpty(init);
      var d0 := if n - 1 > MAX_HISTORY_SIZE then n - 1 - MAX_HISTORY_SIZE else 0;
      var before := AppendAll([], init);
      assert before.0 == paths[d0..n - 1] && before.1 == paths[..d0];
      var step := AppendImage(before.0, paths[n - 1]);
      assert AppendAll([], paths) == (step.history, before.1 + OptionToSeq(step.evicted));
      AppendFromWindow(paths, d0);
    }
  }

  /** The step of AppendAllFromEmpty: appending the last path to the window before it. */
  lemma AppendFromWindow(paths: seq<string>, d0: nat)
    requires |paths| > 0
    requires d0 == if |paths| - 1 > MAX_HISTORY_SIZE then |paths| - 1 - MAX_HISTORY_SIZE else 0
    ensures var n := |paths|;
            var dropped := if n > MAX_HISTORY_SIZE then n - MAX_HISTORY_SIZE else 0;
            var step := AppendImage(paths[d0..n - 1], paths[n - 1]);
            step.history == paths[dropped..] && paths[..d0] + OptionToSeq(step.evicted) == paths[..dropped]
  {
    var n := |paths|;
    var window := paths[d0..n - 1];
    var grown := window + [paths[n - 1]];
    assert grown == paths[d0..];
    if n > MAX_HISTORY_SIZE {
      assert |grown| == MAX_HISTORY_SIZE + 1;
      assert AppendImage(window, paths[n - 1]) == Append(grown[1..], Some(grown[0]));
      assert grown[1..] == paths[d0 + 1..];
      assert paths[..d0] + [paths[d0]] == paths[..d0 + 1];
    } else {
      assert AppendImage(window, paths[n - 1]) == Append(grown, None);
      assert d0 == 0 && paths[d0..] == paths;
    }
  }

  /** The list without its element at position `i`; later elements move down by one. */
  function RemoveAt<T>(s: seq<T>, i: nat): (r: seq<T>)
    requires i < |s|
    ensures |r| == |s| - 1
    ensures forall j :: 0 <= j < i ==> r[j] == s[j]
    ensures forall j :: i <= j < |r| ==> r[j] == s[j + 1]
    ensures multiset(r) + multiset{s[i]} == multiset(s)
  {
    assert s == s[..i] + [s[i]] + s[i + 1..];
    s[..i] + s[i + 1..]
  }

  /**
   * The path `/image` picks for its `index` query parameter (`""` when the
   * parameter is absent); the empty path is answered with 404.
   */
  function SelectImage(history: seq<string>, latest: string, indexParam: string): (path: string)
    ensures indexParam == "" ==> path == latest
    ensures indexParam != "" ==> path == "" || path in history
  {
    if indexParam != "" then
      var index := Decimal.ScanInt(indexParam);
      if 0 <= index < |history| then history[index] else ""
    else latest
  }

  /** `index=<i>` with `i` a position of the history selects exactly that entry. */
  lemma ImageAtIndex(history: seq<string>, latest: string, i: nat)
    requires i < |history| && i <= Decimal.MAX_INT64
    ensures SelectImage(history, latest, Decimal.FormatInt(i)) == history[i]
  {
    Decimal.ScanFormatted(i);
  }

  /** `index=<i>` with `i` negative or past the end selects nothing, which is a 404. */
  lemma ImageOutOfRange(history: seq<string>, latest: string, i: int)
    requires Decimal.MIN_INT64 <= i <= Decimal.MAX_INT64
    requires i < 0 || i >= |history|
    ensures SelectImage(history, latest, Decimal.FormatInt(i)) == ""
  {
    Decimal.ScanFormatted(i);
  }

  /** What one `/delete` does to the history: the new list and the path it removed. */
  datatype Deletion = Deletion(history: seq<string>, removed: Option<string>)

  /**
   * A `/delete` with a present `index` parameter: the entry at the scanned
   * position goes, or nothing does. Either way no path is lost or invented.
   */
  function DeleteIndex(history: seq<string>, indexParam: string): (r: Deletion)
    ensures |r.history| + |OptionToSeq(r.removed)| == |history|
    ensures multiset(r.history) + multiset(OptionToSeq(r.removed)) == multiset(history)
  {
    var index := Decimal.ScanInt(indexParam);
    if 0 <= index < |history| then Deletion(RemoveAt(history, index), Some(history[index]))
    else Deletion(history, None)
  }

  /** Deleting position `i` removes exactly that entry; an out-of-range `i` changes nothing. */
  lemma DeleteAtIndex(history: seq<string>, i: int)
    requires Decimal.MIN_INT64 <= i <= Decimal.MAX_INT64
    ensures 0 <= i < |history| ==> DeleteIndex(history, Decimal.FormatInt(i)) == Deletion(RemoveAt(history, i), Some(history[i]))
    ensures !(0 <= i < |history|) ==> DeleteIndex(history, Decimal.FormatInt(i)) == Deletion(history, None)
  {
    Decimal.ScanFormatted(i);
  }

  /** An `index` with no digit at all scans as 0, so it deletes the oldest entry. */
  lemma NonNumericIndexDeletesOldest(history: seq<string>, indexParam: string)
    requires forall k :: 0 <= k < |indexParam| ==> !Decimal.IsDigit(indexParam[k])
    requires history != []
    ensures DeleteIndex(history, indexParam) == Deletion(history[1..], Some(history[0]))
  {
    assert Decimal.ScanInt(indexParam) == 0;
  }

  // ---------------------------------------------------------------- /history page

  /** One gallery thumbnail: the `index` its links carry and its "Screenshot #" number. */
  datatype Thumb = Thumb(index: string, number: string)

  /**
   * The `/history` page: the `len/50` heading and the thumbnails, newest first;
   * thumbnail k links to position len-1-k and is labelled with len-k.
   */
  method Gallery(history: seq<string>) returns (heading: string, thumbs: seq<Thumb>)
    requires |history| <= MAX_HISTORY_SIZE
    ensures heading == Decimal.FormatInt(|history|) + "/" + Decimal.FormatInt(MAX_HISTORY_SIZE)
    ensures |thumbs| == |history|
    ensures forall k :: 0 <= k < |thumbs| ==>
              thumbs[k] == Thumb(Decimal.FormatInt(|history| - 1 - k), Decimal.FormatInt(|history| - k))
    ensures forall k :: 0 <= k < |thumbs| ==>
              Decimal.ScanInt(thumbs[k].index) == |history| - 1 - k &&
              Decimal.ScanInt(thumbs[k].number) == |history| - k
  {
    heading := Decimal.FormatInt(|history|) + "/" + Decimal.FormatInt(MAX_HISTORY_SIZE);
    thumbs := [];
    var i := |history| - 1;
    while i >= 0
      invariant -1 <= i < |history|
      invariant |thumbs| == |history| - 1 - i
      invariant forall k :: 0 <= k < |thumbs| ==>
                  thumbs[k] == Thumb(Decimal.FormatInt(|history| - 1 - k), Decimal.FormatInt(|history| - k))
    {
      thumbs := thumbs + [Thumb(Decimal.FormatInt(i), Decimal.FormatInt(i + 1))];
      i := i - 1;
    }
    ThumbsScanBack(|history|, thumbs);
  }

  /** The labels of a newest-first gallery of `n` entries scan back to the positions and numbers they were made from. */
  lemma ThumbsScanBack(n: nat, thumbs: seq<Thumb>)
    requires n <= MAX_HISTORY_SIZE && |thumbs| == n
    requires forall k :: 0 <= k < n ==> thumbs[k] == Thumb(Decimal.FormatInt(n - 1 - k), Decimal.FormatInt(n - k))
    ensures forall k :: 0 <= k < n ==>
              Decimal.ScanInt(thumbs[k].index) == n - 1 - k && Decimal.ScanInt(thumbs[k].number) == n - k
  {
    forall k | 0 <= k < n
      ensures Decimal.ScanInt(thumbs[k].index) == n - 1 - k && Decimal.ScanInt(thumbs[k].number) == n - k
    {
      Decimal.ScanFormatted(n - 1 - k);
      Decimal.ScanFormatted(n - k);
    }
  }

  /** Thumbnail k of a gallery whose labels scan back links, through `/image`, to the k-th newest entry. */
  lemma ThumbsSelectHistory(history: seq<string>, latest: string, thumbs: seq<Thumb>)
    requires |thumbs| == |history|
    requires forall k :: 0 <= k < |thumbs| ==>
               thumbs[k].index != "" && Decimal.ScanInt(thumbs[k].index) == |history| - 1 - k
    ensures forall k :: 0 <= k < |thumbs| ==>
              SelectImage(history, latest, thumbs[k].index) == history[|history| - 1 - k]
  {
  }

  // ---------------------------------------------------------------- viewers

  /**
   * The state of the viewer channels: at most 5 connected, none twice, each
   * with a buffer and still open; every buffer within capacity; every channel
   * made so far numbered below the next one.
   */
  ghost predicate ChannelsValid(clients: seq<ChanId>, queues: map<ChanId, seq<string>>, closed: set<ChanId>, nextChan: ChanId)
  {
    && |clients| <= MAX_CLIENTS
    && (forall i, j :: 0 <= i < j < |clients| ==> clients[i] != clients[j])
    && (forall c :: c in clients ==> c in queues && c !in closed)
    && (forall c :: c in queues ==> c < nextChan && |queues[c]| <= CLIENT_QUEUE_CAPACITY)
    && (forall c :: c in closed ==> c < nextChan)
  }

  /**
   * `/events`' admission of a new channel: when 5 are connected the oldest is
   * dropped first, then the new one goes last. Returns the list and the dropped one.
   */
  function AdmitClient(clients: seq<ChanId>, c: ChanId): (r: (seq<ChanId>, Option<ChanId>))
    ensures r.0 != [] && r.0[|r.0| - 1] == c
    ensures |clients| <= MAX_CLIENTS ==> |r.0| <= MAX_CLIENTS
    ensures r.1.Some? <==> |clients| >= MAX_CLIENTS
    ensures r.1.None? ==> r.0 == clients + [c]
    ensures OptionToSeq(r.1) + r.0 == clients + [c]
  {
    if |clients| >= MAX_CLIENTS then
      assert [clients[0]] + (clients[1..] + [c]) == clients + [c];
      (clients[1..] + [c], Some(clients[0]))
    else (clients + [c], None)
  }

  /** Admitting a channel not yet connected keeps the channels distinct, and admits nothing else. */
  lemma AdmitKeepsDistinct(clients: seq<ChanId>, c: ChanId)
    requires forall i, j :: 0 <= i < j < |clients| ==> clients[i] != clients[j]
    requires c !in clients
    ensures var admitted := AdmitClient(clients, c).0;
            && (forall i, j :: 0 <= i < j < |admitted| ==> admitted[i] != admitted[j])
            && (forall d :: d in admitted ==> d in clients || d == c)
  {
    var admitted := AdmitClient(clients, c).0;
    var offset := if |clients| >= MAX_CLIENTS then 1 else 0;
    assert forall i :: 0 <= i < |admitted| - 1 ==> admitted[i] == clients[i + offset];
  }

  /** Admitting the next channel, with an empty buffer, keeps the channels valid. */
  lemma SubscribeKeepsChannels(clients: seq<ChanId>, queues: map<ChanId, seq<string>>, closed: set<ChanId>, nextChan: ChanId)
    requires ChannelsValid(clients, queues, closed, nextChan)
    ensures var admitted := AdmitClient(clients, nextChan);
            ChannelsValid(admitted.0, queues[nextChan := []], closed + (if admitted.1.Some? then {admitted.1.value} else {}), nextChan + 1)
  {
    assert nextChan !in clients;
    AdmitKeepsDistinct(clients, nextChan);
  }

  /** The position of the first `x` in `s`, or `|s|` when there is none. */
  function IndexOf<T(==)>(s: seq<T>, x: T): (i: nat)
    ensures i <= |s|
    ensures i < |s| ==> s[i] == x
    ensures forall j :: 0 <= j < i ==> s[j] != x
    ensures i == |s| <==> x !in s
  {
    if s == [] || s[0] == x then 0 else 1 + IndexOf(s[1..], x)
  }

  /** The list without the first occurrence of `x`. */
  function RemoveFirst<T(==)>(s: seq<T>, x: T): (r: seq<T>)
    ensures x !in s ==> r == s
    ensures x in s ==> |r| == |s| - 1 && multiset(r) == multiset(s) - multiset{x}
    ensures x in s ==> var i := IndexOf(s, x); r[..i] == s[..i] && r[i..] == s[i + 1..]
  {
    var i := IndexOf(s, x);
    if i < |s| then RemoveAt(s, i) else s
  }

  /** In a list without repetitions, removing `x` drops it, keeps every other element, and adds no repetition. */
  lemma RemoveFirstDistinct<T>(s: seq<T>, x: T)
    requires forall i, j :: 0 <= i < j < |s| ==> s[i] != s[j]
    ensures x !in RemoveFirst(s, x)
    ensures forall y :: y in s && y != x ==> y in RemoveFirst(s, x)
    ensures forall i, j :: 0 <= i < j < |RemoveFirst(s, x)| ==> RemoveFirst(s, x)[i] != RemoveFirst(s, x)[j]
  {
    var r := RemoveFirst(s, x);
    if x in s {
      var k := IndexOf(s, x);
      assert r == RemoveAt(s, k);
      forall y | y in s && y != x ensures y in r {
        var j :| 0 <= j < |s| && s[j] == y;
        if j < k { assert r[j] == y; } else { assert j > k && r[j - 1] == y; }
      }
      forall j | 0 <= j < |r| ensures r[j] != x {
        if j < k { assert r[j] == s[j] && s[k] == x; } else { assert r[j] == s[j + 1] && s[k] == x; }
      }
    }
  }

  /** The search loop of `/events`' cleanup: the list without the first occurrence of `c`. */
  method RemoveClient(clients: seq<ChanId>, c: ChanId) returns (list: seq<ChanId>)
    ensures list == RemoveFirst(clients, c)
  {
    list := clients;
    var i := 0;
    while i < |list|
      invariant 0 <= i <= |list|
      invariant list == clients
      invariant forall j :: 0 <= j < i ==> list[j] != c
    {
      if list[i] == c {
        assert IndexOf(list, c) == i;
        list := list[..i] + list[i + 1..];
        return;
      }
      i := i + 1;
    }
  }

  /** Dropping a channel from the list and closing it keeps the viewer-channel invariant. */
  lemma UnsubscribeKeepsChannels(clients: seq<ChanId>, queues: map<ChanId, seq<string>>, closed: set<ChanId>,
                                 nextChan: ChanId, c: ChanId)
    requires ChannelsValid(clients, queues, closed, nextChan) && c in queues
    ensures ChannelsValid(RemoveFirst(clients, c), queues, closed + {c}, nextChan)
  {
    RemoveFirstDistinct(clients, c);
    RemoveFirstSubset(clients, c);
  }

  /** Removal keeps only channels that were in the list. */
  lemma RemoveFirstSubset<T>(s: seq<T>, x: T)
    ensures |RemoveFirst(s, x)| <= |s|
    ensures forall y :: y in RemoveFirst(s, x) ==> y in s
  {
    var r := RemoveFirst(s, x);
    forall y | y in r ensures y in s {
      if x in s {
        assert y in multiset(r);
      }
    }
  }

  /** The SSE frame a viewer writes for one message. */
  function Frame(msg: string): string {
    "data: " + msg + "\n\n"
  }

  /** What one wait of a viewer's `/events` loop on its channel sees. */
  datatype Receive = Message(frame: string) | ChannelClosed | Waiting

  /** A reply of the HTTP surface, reduced to what the handlers decide. */
  datatype Reply = Json(body: string) | PngFile(path: string) | HttpError(status: nat, message: string)

  // ---------------------------------------------------------------- the server

  class Server {
    /** `imageHistory`, oldest first. */
    var history: seq<string>
    var latestImage: string
    /** `server != nil`: `Start` has built a server at least once. */
    var serverCreated: bool
    var serverStarted: bool
    var browserOpened: bool
    /** `clients`, oldest first. */
    var clients: seq<ChanId>
    /** The buffered messages of every channel made so far. */
    var queues: map<ChanId, seq<string>>
    var closed: set<ChanId>
    var nextChan: ChanId
    /** Every path handed to `os.Remove`, in order. */
    ghost var deleted: seq<string>
    /** How many times a browser window was launched. */
    ghost var windowsOpened: nat

    ghost predicate Valid()
      reads this
    {
      && |history| <= MAX_HISTORY_SIZE
      && ChannelsValid(clients, queues, closed, nextChan)
      && (serverStarted ==> serverCreated)
    }

    constructor ()
      ensures Valid()
      ensures history == [] && latestImage == "" && clients == [] && queues == map[] && closed == {}
      ensures !serverCreated && !serverStarted && !browserOpened
      ensures deleted == [] && windowsOpened == 0
    {
      history, latestImage := [], "";
      serverCreated, serverStarted, browserOpened := false, false, false;
      clients, queues, closed, nextChan := [], map[], {}, 0;
      deleted, windowsOpened := [], 0;
    }

    /** `Start`: does nothing when the server runs, otherwise builds and starts one. */
    method Start()
      requires Valid()
      modifies this
      ensures Valid()
      ensures serverStarted && serverCreated
      ensures history == old(history) && latestImage == old(latestImage) && browserOpened == old(browserOpened)
      ensures clients == old(clients) && queues == old(queues) && closed == old(closed) && nextChan == old(nextChan)
      ensures deleted == old(deleted) && windowsOpened == old(windowsOpened)
    {
      if serverStarted {
        return;
      }
      serverCreated := true;
      serverStarted := true;
    }

    /** `Shutdown`: stops the server if one was ever built. */
    method Shutdown()
      requires Valid()
      modifies this
      ensures Valid()
      ensures serverStarted == (old(serverStarted) && !serverCreated) && serverCreated == old(serverCreated)
      ensures history == old(history) && latestImage == old(latestImage) && browserOpened == old(browserOpened)
      ensures clients == old(clients) && queues == old(queues) && closed == old(closed) && nextChan == old(nextChan)
      ensures deleted == old(deleted) && windowsOpened == old(windowsOpened)
    {
      if serverCreated {
        serverStarted := false;
      }
    }

    /**
     * `ShowInBrowser`: records the path as latest and in the history, evicting
     * and deleting the oldest entry beyond 50, even when the server is not
     * started; only a started server then notifies the viewers and opens a
     * window when none is connected.
     */
    method ShowInBrowser(imagePath: string) returns (r: Outcome)
      requires Valid()
      modifies this
      ensures Valid()
      ensures latestImage == imagePath
      ensures history == AppendImage(old(history), imagePath).history
      ensures deleted == old(deleted) + OptionToSeq(AppendImage(old(history), imagePath).evicted)
      ensures r == if old(serverStarted) then Pass else Fail("preview server not started")
      ensures queues == if old(serverStarted) then Fanout(old(queues), old(clients), UPDATE_EVENT) else old(queues)
      ensures windowsOpened == old(windowsOpened) + if old(serverStarted) && old(clients) == [] then 1 else 0
      ensures browserOpened == (old(browserOpened) || (old(serverStarted) && old(clients) == []))
      ensures clients == old(clients) && closed == old(closed) && nextChan == old(nextChan)
      ensures serverStarted == old(serverStarted) && serverCreated == old(serverCreated)
    {
      RecordImage(imagePath);
      if !serverStarted {
        return Fail("preview server not started");
      }
      NotifyClients(UPDATE_EVENT);
      var _ := TryOpenBrowser();
      return Pass;
    }

    /** The locked section of `ShowInBrowser`: the path becomes the latest and joins the history. */
    method RecordImage(imagePath: string)
      requires Valid()
      modifies this
      ensures Valid()
      ensures latestImage == imagePath
      ensures history == AppendImage(old(history), imagePath).history
      ensures deleted == old(deleted) + OptionToSeq(AppendImage(old(history), imagePath).evicted)
      ensures queues == old(queues) && browserOpened == old(browserOpened) && windowsOpened == old(windowsOpened)
      ensures clients == old(clients) && closed == old(closed) && nextChan == old(nextChan)
      ensures serverStarted == old(serverStarted) && serverCreated == old(serverCreated)
    {
      var step := AppendImage(history, imagePath);
      latestImage, history, deleted := imagePath, step.history, deleted + OptionToSeq(step.evicted);
    }

    /**
     * `notifyClients`: a non-blocking send to every connected channel; a full
     * channel drops the message, the list of channels does not change.
     */
    method NotifyClients(msg: string)
      requires Valid()
      modifies this
      ensures Valid()
      ensures queues == Fanout(old(queues), clients, msg)
      ensures history == old(history) && latestImage == old(latestImage) && browserOpened == old(browserOpened)
      ensures clients == old(clients) && closed == old(closed) && nextChan == old(nextChan)
      ensures serverStarted == old(serverStarted) && serverCreated == old(serverCreated)
      ensures deleted == old(deleted) && windowsOpened == old(windowsOpened)
    {
      var q := Broadcast(queues, clients, msg);
      forall c | c in q
        ensures c < nextChan && |q[c]| <= CLIENT_QUEUE_CAPACITY
      {
        FanoutEffect(queues, clients, msg, c);
      }
      queues := q;
    }

    /** `tryOpenBrowser`: opens a window exactly when no viewer is connected. */
    method TryOpenBrowser() returns (launched: bool)
      requires Valid()
      modifies this
      ensures Valid()
      ensures launched <==> clients == []
      ensures windowsOpened == old(windowsOpened) + if launched then 1 else 0
      ensures browserOpened == (old(browserOpened) || launched)
      ensures history == old(history) && latestImage == old(latestImage)
      ensures clients == old(clients) && queues == old(queues) && closed == old(closed) && nextChan == old(nextChan)
      ensures serverStarted == old(serverStarted) && serverCreated == old(serverCreated)
      ensures deleted == old(deleted)
    {
      var hasActiveClients := |clients| > 0;
      if hasActiveClients {
        return false;
      }
      windowsOpened := windowsOpened + 1;
      browserOpened := true;
      return true;
    }

    /** `/image`: the chosen path, 404 when none is chosen or the file does not open. */
    function ImageRequest(indexParam: string, fileOpens: bool): (reply: Reply)
      reads this
      ensures reply.PngFile? || reply.HttpError?
      ensures reply.HttpError? ==> reply.status == 404
      ensures reply.PngFile? <==> fileOpens && SelectImage(history, latestImage, indexParam) != ""
      ensures reply.PngFile? ==> reply.path == SelectImage(history, latestImage, indexParam)
      ensures reply.PngFile? && indexParam != "" ==> reply.path in history
      ensures reply.PngFile? && indexParam == "" ==> reply.path == latestImage
      ensures !fileOpens && SelectImage(history, latestImage, indexParam) != "" ==> reply == HttpError(404, "Image not found")
    {
      var imgPath := SelectImage(history, latestImage, indexParam);
      if imgPath == "" then HttpError(404, "No image yet")
      else if !fileOpens then HttpError(404, "Image not found")
      else PngFile(imgPath)
    }

    /** `/image?index=i` for a history position `i` serves entry `i`, or a 404 when its file does not open. */
    lemma ServesHistoryEntry(i: nat)
      requires i < |history| && i <= Decimal.MAX_INT64
      ensures history[i] != "" ==> ImageRequest(Decimal.FormatInt(i), true) == PngFile(history[i])
      ensures history[i] != "" ==> ImageRequest(Decimal.FormatInt(i), false) == HttpError(404, "Image not found")
      ensures history[i] == "" ==> ImageRequest(Decimal.FormatInt(i), true) == HttpError(404, "No image yet")
    {
      ImageAtIndex(history, latestImage, i);
    }

    /** `/history`: the page built from a copy of the history. */
    method HistoryPage() returns (heading: string, thumbs: seq<Thumb>)
      requires Valid()
      ensures heading == Decimal.FormatInt(|history|) + "/" + Decimal.FormatInt(MAX_HISTORY_SIZE)
      ensures |thumbs| == |history|
      ensures forall k :: 0 <= k < |thumbs| ==>
                SelectImage(history, latestImage, thumbs[k].index) == history[|history| - 1 - k]
    {
      var snapshot := history;
      heading, thumbs := Gallery(snapshot);
      assert forall k :: 0 <= k < |thumbs| ==> thumbs[k].index != "";
      ThumbsSelectHistory(history, latestImage, thumbs);
    }

    /**
     * `/delete`: 405 for anything but POST, 400 without `index`; otherwise the
     * entry at the scanned position is removed and its file deleted when the
     * position is in range, and the answer is success either way.
     * `latestImage` is never touched.
     */
    method HandleDelete(verb: string, indexParam: string) returns (reply: Reply)
      requires Valid()
      modifies this
      ensures Valid()
      ensures verb != "POST" ==> reply == HttpError(405, "Method not allowed") && history == old(history) && deleted == old(deleted)
      ensures verb == "POST" && indexParam == "" ==> reply == HttpError(400, "Missing index parameter") && history == old(history) && deleted == old(deleted)
      ensures verb == "POST" && indexParam != "" ==> reply == Json(SUCCESS_BODY) && history == DeleteIndex(old(history), indexParam).history
      ensures verb == "POST" && indexParam != "" ==> deleted == old(deleted) + OptionToSeq(DeleteIndex(old(history), indexParam).removed)
      ensures latestImage == old(latestImage) && browserOpened == old(browserOpened)
      ensures clients == old(clients) && queues == old(queues) && closed == old(closed) && nextChan == old(nextChan)
      ensures serverStarted == old(serverStarted) && serverCreated == old(serverCreated)
      ensures windowsOpened == old(windowsOpened)
    {
      if verb != "POST" {
        return HttpError(405, "Method not allowed");
      }
      if indexParam == "" {
        return HttpError(400, "Missing index parameter");
      }
      var index := Decimal.ScanInt(indexParam);
      if 0 <= index < |history| {
        RemoveEntry(index);
      }
      return Json(SUCCESS_BODY);
    }

    /** The in-range branch of `/delete`: the entry leaves the history and its file is deleted. */
    method RemoveEntry(index: nat)
      requires Valid() && index < |history|
      modifies this
      ensures Valid()
      ensures history == RemoveAt(old(history), index) && deleted == old(deleted) + [old(history)[index]]
      ensures latestImage == old(latestImage) && browserOpened == old(browserOpened)
      ensures clients == old(clients) && queues == old(queues) && closed == old(closed) && nextChan == old(nextChan)
      ensures serverStarted == old(serverStarted) && serverCreated == old(serverCreated)
      ensures windowsOpened == old(windowsOpened)
    {
      var imagePath := history[index];
      var remaining := RemoveAt(history, index);
      deleted := deleted + [imagePath];
      history := remaining;
    }

    /** `/clear-all`: 405 for anything but POST; otherwise every file is deleted and both history and latest are emptied. */
    method HandleClearAll(verb: string) returns (reply: Reply)
      requires Valid()
      modifies this
      ensures Valid()
      ensures verb != "POST" ==> reply == HttpError(405, "Method not allowed") && history == old(history)
                                 && latestImage == old(latestImage) && deleted == old(deleted)
      ensures verb == "POST" ==> reply == Json(SUCCESS_BODY) && history == [] && latestImage == ""
                                 && deleted == old(deleted) + old(history)
      ensures browserOpened == old(browserOpened)
      ensures clients == old(clients) && queues == old(queues) && closed == old(closed) && nextChan == old(nextChan)
      ensures serverStarted == old(serverStarted) && serverCreated == old(serverCreated)
      ensures windowsOpened == old(windowsOpened)
    {
      if verb != "POST" {
        return HttpError(405, "Method not allowed");
      }
      var paths := history;
      ghost var removed := deleted;
      var i := 0;
      while i < |paths|
        invariant 0 <= i <= |paths|
        invariant removed == old(deleted) + paths[..i]
      {
        removed := removed + [paths[i]];
        i := i + 1;
      }
      assert paths[..i] == paths;
      deleted := removed;
      history := [];
      latestImage := "";
      return Json(SUCCESS_BODY);
    }

    /**
     * The admission step of `/events`: a fresh channel with an empty buffer;
     * with 5 viewers connected the oldest one's channel is closed and dropped first.
     */
    method Subscribe() returns (c: ChanId)
      requires Valid()
      modifies this
      ensures Valid()
      ensures c == old(nextChan) && c !in old(queues) && c !in old(closed)
      ensures clients == AdmitClient(old(clients), c).0
      ensures closed == old(closed) + if |old(clients)| >= MAX_CLIENTS then {old(clients)[0]} else {}
      ensures queues == old(queues)[c := []]
      ensures nextChan == old(nextChan) + 1
      ensures history == old(history) && latestImage == old(latestImage) && browserOpened == old(browserOpened)
      ensures serverStarted == old(serverStarted) && serverCreated == old(serverCreated)
      ensures deleted == old(deleted) && windowsOpened == old(windowsOpened)
    {
      c := nextChan;
      assert c !in clients && c !in closed;
      var admitted := AdmitClient(clients, c);
      SubscribeKeepsChannels(clients, queues, closed, nextChan);
      if admitted.1.Some? {
        SafeClose(admitted.1.value);
      }
      clients, queues, nextChan := admitted.0, queues[c := []], nextChan + 1;
    }

    /**
     * The deferred cleanup of `/events`: drops the first occurrence of the
     * channel from the list, then closes it; a channel an eviction already
     * closed is tolerated.
     */
    method Unsubscribe(c: ChanId)
      requires Valid() && c in queues
      modifies this
      ensures Valid()
      ensures clients == RemoveFirst(old(clients), c)
      ensures closed == old(closed) + {c}
      ensures queues == old(queues) && nextChan == old(nextChan)
      ensures history == old(history) && latestImage == old(latestImage) && browserOpened == old(browserOpened)
      ensures serverStarted == old(serverStarted) && serverCreated == old(serverCreated)
      ensures deleted == old(deleted) && windowsOpened == old(windowsOpened)
    {
      UnsubscribeKeepsChannels(clients, queues, closed, nextChan, c);
      var list := RemoveClient(clients, c);
      clients := list;
      SafeClose(c);
    }

    /** `safeClose`: closing a closed channel panics in Go and is recovered, so closing is idempotent. */
    method SafeClose(c: ChanId)
      modifies this
      ensures closed == old(closed) + {c}
      ensures history == old(history) && latestImage == old(latestImage) && browserOpened == old(browserOpened)
      ensures clients == old(clients) && queues == old(queues) && nextChan == old(nextChan)
      ensures serverStarted == old(serverStarted) && serverCreated == old(serverCreated)
      ensures deleted == old(deleted) && windowsOpened == old(windowsOpened)
    {
      closed := closed + {c};
    }

    /**
     * One wait of a viewer's `/events` loop: a buffered message is taken and
     * written as a frame even after the channel was closed; a closed, drained
     * channel ends the loop; an open, empty one blocks.
     */
    method Receive(c: ChanId) returns (r: Receive)
      requires Valid() && c in queues
      modifies this
      ensures Valid()
      ensures old(queues[c]) != [] ==> r == Message(Frame(old(queues[c])[0])) && queues == old(queues)[c := old(queues[c])[1..]]
      ensures old(queues[c]) == [] ==> queues == old(queues) && r == if c in closed then ChannelClosed else Waiting
      ensures history == old(history) && latestImage == old(latestImage) && browserOpened == old(browserOpened)
      ensures clients == old(clients) && closed == old(closed) && nextChan == old(nextChan)
      ensures serverStarted == old(serverStarted) && serverCreated == old(serverCreated)
      ensures deleted == old(deleted) && windowsOpened == old(windowsOpened)
    {
      var q := queues[c];
      if q != [] {
        queues := queues[c := q[1..]];
        return Message(Frame(q[0]));
      }
      if c in closed {
        return ChannelClosed;
      }
      return Waiting;
    }
  }

  /**
   * The channels after one `notifyClients`: a non-blocking send of `msg` to
   * each channel of `clients` in turn, which a full channel drops. No channel
   * appears or disappears.
   */
  function Fanout(queues: map<ChanId, seq<string>>, clients: seq<ChanId>, msg: string): (r: map<ChanId, seq<string>>)
    ensures r.Keys == queues.Keys
  {
    if clients == [] then queues
    else
      var q := Fanout(queues, clients[..|clients| - 1], msg);
      var c := clients[|clients| - 1];
      if c in q && |q[c]| < CLIENT_QUEUE_CAPACITY then q[c := q[c] + [msg]] else q
  }

  /** The send loop of `notifyClients`. */
  method Broadcast(queues: map<ChanId, seq<string>>, clients: seq<ChanId>, msg: string)
    returns (q: map<ChanId, seq<string>>)
    requires forall c :: c in clients ==> c in queues
    ensures q == Fanout(queues, clients, msg)
  {
    q := queues;
    var i := 0;
    while i < |clients|
      invariant 0 <= i <= |clients|
      invariant q == Fanout(queues, clients[..i], msg)
    {
      var c := clients[i];
      assert clients[..i + 1][..i] == clients[..i];
      if |q[c]| < CLIENT_QUEUE_CAPACITY {
        q := q[c := q[c] + [msg]];
      }
      i := i + 1;
    }
    assert clients[..i] == clients;
  }

  /**
   * Over distinct channels, a broadcast keeps every buffer within capacity,
   * appends to exactly the connected channels with room, and leaves full or
   * disconnected channels alone.
   */
  lemma {:induction false} FanoutEffect(queues: map<ChanId, seq<string>>, clients: seq<ChanId>, msg: string, c: ChanId)
    requires forall i, j :: 0 <= i < j < |clients| ==> clients[i] != clients[j]
    requires c in queues && |queues[c]| <= CLIENT_QUEUE_CAPACITY
    ensures c in Fanout(queues, clients, msg)
    ensures |Fanout(queues, clients, msg)[c]| <= CLIENT_QUEUE_CAPACITY
    ensures c in clients && |queues[c]| < CLIENT_QUEUE_CAPACITY ==> Fanout(queues, clients, msg)[c] == queues[c] + [msg]
    ensures c !in clients || |queues[c]| == CLIENT_QUEUE_CAPACITY ==> Fanout(queues, clients, msg)[c] == queues[c]
  {
    if clients != [] {
      var sent := clients[..|clients| - 1];
      var last := clients[|clients| - 1];
      assert clients == sent + [last];
      FanoutEffect(queues, sent, msg, c);
      if c == last {
        assert c !in sent by {
          forall k | 0 <= k < |sent| ensures sent[k] != c {
            assert sent[k] == clients[k];
          }
        }
      }
    }
  }
}
