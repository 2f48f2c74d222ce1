/** Storing a received file without ever overwriting one: the candidate names, the search over them, the
    promotion of a finished temp file, and any number of transfers doing this at once. */
module Destination {
  import opened Base

  const MAX_DUPLICATE_SUFFIX: nat := 999

  // ---- Names ----

  /** The last position of a dot, or -1. */
  function LastDot(name: string): (r: int)
    ensures -1 <= r < |name|
    ensures r >= 0 ==> name[r] == '.'
    ensures forall k :: r < k < |name| ==> name[k] != '.'
  {
    if name == [] then -1
    else if name[|name| - 1] == '.' then |name| - 1
    else LastDot(name[..|name| - 1])
  }

  /** A leading dot belongs to the stem. */
  function SplitExtension(name: string): (r: (string, string))
    ensures r.0 + r.1 == name
  {
    var dot := LastDot(name);
    if dot > 0 then (name[..dot], name[dot..]) else (name, "")
  }

  function Digit(n: nat): char
    requires n < 10
  {
    '0' + n as char
  }

  function Decimal(n: nat): (s: string)
    ensures |s| >= 1
  {
    if n < 10 then [Digit(n)] else Decimal(n / 10) + [Digit(n % 10)]
  }

  lemma {:induction false} DecimalInjective(a: nat, b: nat)
    requires Decimal(a) == Decimal(b)
    ensures a == b
  {
    var s, t := Decimal(a), Decimal(b);
    assert s[|s| - 1] == Digit(a % 10) && t[|t| - 1] == Digit(b % 10);
    assert a % 10 == b % 10;
    if a >= 10 && b >= 10 {
      assert s[..|s| - 1] == Decimal(a / 10) && t[..|t| - 1] == Decimal(b / 10);
      DecimalInjective(a / 10, b / 10);
    }
  }

  function Candidate(name: string, attempt: nat): string {
    if attempt == 0 then name
    else var (stem, extension) := SplitExtension(name); stem + " (" + Decimal(attempt) + ")" + extension
  }

  /** Whatever the name, no two attempts try the same one. */
  lemma CandidatesDistinct(name: string, j: nat, k: nat)
    requires Candidate(name, j) == Candidate(name, k)
    ensures j == k
  {
    var (stem, extension) := SplitExtension(name);
    assert |name| == |stem| + |extension|;
    if j != 0 && k != 0 {
      var s, t := Candidate(name, j), Candidate(name, k);
      var from, end := |stem| + 2, |s| - |extension| - 1;
      assert s[from..end] == Decimal(j) && t[from..end] == Decimal(k);
      DecimalInjective(j, k);
    }
  }

  // ---- The search ----

  type Files = map<string, Bytes>

  datatype IoError = InvalidInput | AlreadyExists | NotFound | Other(code: int)

  /** What the file system does beyond its contents: which names are direct children of the directory,
      and which opens it refuses for another reason. */
  datatype Host = Host(direct: string -> bool, refuses: string -> Option<int>)

  /** What trying one name gives: an error that ends the search, `AlreadyExists` to go on, or the name. */
  function TryName(files: Files, host: Host, name: string): Result<string, IoError> {
    if !host.direct(name) then Err(InvalidInput)
    else if host.refuses(name).Some? then Err(Other(host.refuses(name).value))
    else if name in files then Err(AlreadyExists)
    else Ok(name)
  }

  /** Attempts `j` up to but not including `k` all found the name taken. */
  ghost predicate AllTaken(files: Files, host: Host, name: string, k: nat) {
    forall j :: 0 <= j < k ==> TryName(files, host, Candidate(name, j)) == Err(AlreadyExists)
  }

  /** `r` is what the search answers: the outcome of the first attempt that did not find its name taken. */
  ghost predicate IsReservation(files: Files, host: Host, name: string, r: Result<string, IoError>) {
    if AllTaken(files, host, name, MAX_DUPLICATE_SUFFIX + 1) then r == Err(AlreadyExists)
    else exists k :: FirstFree(files, host, name, k) && r == TryName(files, host, Candidate(name, k))
  }

  ghost predicate FirstFree(files: Files, host: Host, name: string, k: nat) {
    && k <= MAX_DUPLICATE_SUFFIX
    && AllTaken(files, host, name, k)
    && TryName(files, host, Candidate(name, k)) != Err(AlreadyExists)
  }

  class DownloadSink {
    var files: Files
    const host: Host

    constructor (initial: Files, h: Host)
      ensures files == initial && host == h
    {
      files, host := initial, h;
    }

    /** Exclusive creation: only a name nobody has is created, empty. */
    method CreateNew(name: string) returns (r: Result<string, IoError>)
      modifies this`files
      ensures r == TryName(old(files), host, name)
      ensures files == if r.Ok? then old(files)[name := []] else old(files)
    {
      r := TryName(files, host, name);
      if r.Ok? {
        files := files[name := []];
      }
    }

    method Reserve(name: string) returns (r: Result<string, IoError>)
      modifies this`files
      ensures IsReservation(old(files), host, name, r)
      ensures files == if r.Ok? then old(files)[r.value := []] else old(files)
    {
      for attempt := 0 to MAX_DUPLICATE_SUFFIX + 1
        invariant files == old(files)
        invariant AllTaken(files, host, name, attempt)
      {
        r := CreateNew(Candidate(name, attempt));
        if r != Err(AlreadyExists) {
          assert FirstFree(old(files), host, name, attempt);
          return;
        }
      }
      r := Err(AlreadyExists);
    }

    /** A failed rename removes the placeholder and ignores whether that worked. */
    method Promote(temp: string, name: string, renameFails: Option<IoError>, removeFails: bool)
      returns (r: Result<string, IoError>, ghost reserved: Result<string, IoError>)
      modifies this`files
      ensures IsReservation(old(files), host, name, reserved)
      ensures reserved.Err? ==> r == reserved
      ensures reserved.Ok? ==> r == RenameOutcome(old(files)[reserved.value := []], temp, reserved.value, renameFails)
      ensures files == Promoted(old(files), temp, reserved, renameFails, removeFails)
    {
      var path := Reserve(name);
      reserved := path;
      if path.Err? {
        return path, reserved;
      }
      r := RenameOutcome(files, temp, path.value, renameFails);
      if r.Ok? {
        files := (files - {temp})[path.value := files[temp]];
      } else if !removeFails {
        files := files - {path.value};
      }
      assert (old(files)[path.value := []] - {path.value}) == old(files) by {
        ReservedIsFree(old(files), host, name, path.value);
      }
    }
  }

  function RenameOutcome(files: Files, temp: string, path: string, fails: Option<IoError>): Result<string, IoError> {
    if fails.Some? then Err(fails.value) else if temp !in files then Err(NotFound) else Ok(path)
  }

  /** The directory after a promotion whose reservation gave `reserved`. */
  function Promoted(files: Files, temp: string, reserved: Result<string, IoError>, renameFails: Option<IoError>,
                    removeFails: bool): Files
  {
    if reserved.Err? then files
    else
      var path := reserved.value;
      var placed := files[path := []];
      if RenameOutcome(placed, temp, path, renameFails).Ok? then (placed - {temp})[path := placed[temp]]
      else if removeFails then placed
      else files
  }

  // ---- What the search guarantees ----

  /** A reserved name is the first candidate that was free, and it did not exist. */
  lemma ReservedIsFree(files: Files, host: Host, name: string, path: string)
    requires IsReservation(files, host, name, Ok(path))
    ensures path !in files
    ensures exists k :: FirstFree(files, host, name, k) && path == Candidate(name, k)
  {
  }

  /** With no other refusal, the search fails exactly when all thousand candidates exist. */
  lemma ReserveFailsExactly(files: Files, host: Host, name: string, r: Result<string, IoError>)
    requires IsReservation(files, host, name, r)
    requires forall k :: 0 <= k <= MAX_DUPLICATE_SUFFIX
                         ==> host.direct(Candidate(name, k)) && host.refuses(Candidate(name, k)).None?
    ensures r.Err? <==> forall k :: 0 <= k <= MAX_DUPLICATE_SUFFIX ==> Candidate(name, k) in files
    ensures r.Err? ==> r.error == AlreadyExists
  {
  }

  lemma {:induction false} CandidatesNeedRoom(keys: set<string>, name: string, n: nat)
    requires forall k :: 0 <= k < n ==> Candidate(name, k) in keys
    ensures |keys| >= n
  {
    if n > 0 {
      var last := Candidate(name, n - 1);
      forall k | 0 <= k < n - 1 ensures Candidate(name, k) in keys - {last} {
        if Candidate(name, k) == last {
          CandidatesDistinct(name, k, n - 1);
        }
      }
      CandidatesNeedRoom(keys - {last}, name, n - 1);
      assert last in keys;
    }
  }

  /** So it always succeeds in a directory with no more entries than the largest suffix. */
  lemma SucceedsWithRoom(files: Files, host: Host, name: string, r: Result<string, IoError>)
    requires IsReservation(files, host, name, r)
    requires forall k :: 0 <= k <= MAX_DUPLICATE_SUFFIX
                         ==> host.direct(Candidate(name, k)) && host.refuses(Candidate(name, k)).None?
    requires |files| <= MAX_DUPLICATE_SUFFIX
    ensures r.Ok?
  {
    if forall k :: 0 <= k <= MAX_DUPLICATE_SUFFIX ==> Candidate(name, k) in files {
      CandidatesNeedRoom(files.Keys, name, MAX_DUPLICATE_SUFFIX + 1);
    }
    ReserveFailsExactly(files, host, name, r);
  }

  /** A promotion of an existing temp file moves exactly its content to a name that was free and touches
      nothing else; one that fails leaves the directory as it was unless removing the placeholder failed too. */
  lemma PromotionMovesOrRestores(files: Files, host: Host, temp: string, name: string, reserved: Result<string,
                                 IoError>,
                                 renameFails: Option<IoError>, removeFails: bool)
    requires IsReservation(files, host, name, reserved) && temp in files
    ensures var after := Promoted(files, temp, reserved, renameFails, removeFails);
            if reserved.Ok? && renameFails.None? then
              && reserved.value !in files && temp !in after
              && after.Keys == files.Keys - {temp} + {reserved.value}
              && after[reserved.value] == files[temp]
              && forall n :: n in files && n != temp ==> n in after && after[n] == files[n]
            else after == files <==> reserved.Err? || !removeFails
  {
    if reserved.Ok? {
      ReservedIsFree(files, host, name, reserved.value);
    }
  }

  // ---- Many transfers at once ----

  /** A transfer: filling its temp file, looking for a name, holding one, or done. */
  datatype Transfer =
    | Filling(temp: string, content: Bytes)
    | Looking(temp: string, content: Bytes, name: string, attempt: nat)
    | Holding(temp: string, content: Bytes, path: string)
    | Stored(path: string, content: Bytes)
    | Stuck(temp: string, content: Bytes)

  type TransferId = nat

  datatype World = World(files: Files, transfers: map<TransferId, Transfer>)

  /** One system call of one transfer, or another program creating a file. */
  datatype Action =
    | OpenTemp(id: TransferId, temp: string)
    | Append(id: TransferId, data: Bytes)
    | Verified(id: TransferId, name: string)
    | Try(id: TransferId)
    | Rename(id: TransferId)
    | RenameFails(id: TransferId, removed: bool)
    | Stranger(name: string, data: Bytes)

  function Act(w: World, host: Host, a: Action): World {
    match a
    case OpenTemp(id, temp) =>
      if id in w.transfers || TryName(w.files, host, temp).Err? then w
      else World(w.files[temp := []], w.transfers[id := Filling(temp, [])])
    case Append(id, data) =>
      if id !in w.transfers || !w.transfers[id].Filling? then w
      else
        var t := w.transfers[id];
        World(w.files[t.temp := t.content + data], w.transfers[id := Filling(t.temp, t.content + data)])
    case Verified(id, name) =>
      if id !in w.transfers || !w.transfers[id].Filling? then w
      else var t := w.transfers[id]; w.(transfers := w.transfers[id := Looking(t.temp, t.content, name, 0)])
    case Try(id) =>
      if id !in w.transfers || !w.transfers[id].Looking? then w else TryNext(w, host, id)
    case Rename(id) =>
      if id !in w.transfers || !w.transfers[id].Holding? || w.transfers[id].temp !in w.files then w
      else
        var t := w.transfers[id];
        World((w.files - {t.temp})[t.path := w.files[t.temp]], w.transfers[id := Stored(t.path, t.content)])
    case RenameFails(id, removed) =>
      if id !in w.transfers || !w.transfers[id].Holding? then w
      else
        var t := w.transfers[id];
        World(if removed then w.files - {t.path} else w.files, w.transfers[id := Stuck(t.temp, t.content)])
    case Stranger(name, data) => if name in w.files then w else w.(files := w.files[name := data])
  }

  function TryNext(w: World, host: Host, id: TransferId): World
    requires id in w.transfers && w.transfers[id].Looking?
  {
    var t := w.transfers[id];
    if t.attempt > MAX_DUPLICATE_SUFFIX then w.(transfers := w.transfers[id := Stuck(t.temp, t.content)])
    else
      var r := TryName(w.files, host, Candidate(t.name, t.attempt));
      if r.Ok? then World(w.files[r.value := []], w.transfers[id := Holding(t.temp, t.content, r.value)])
      else if r.error.AlreadyExists? then w.(transfers := w.transfers[id := t.(attempt := t.attempt + 1)])
      else w.(transfers := w.transfers[id := Stuck(t.temp, t.content)])
  }

  /** The names a transfer has created. */
  function Owned(t: Transfer): set<string> {
    match t
    case Stored(path, _) => {path}
    case Holding(temp, _, path) => {temp, path}
    case _ => {t.temp}
  }

  /** The file that holds what the transfer received. */
  function Body(t: Transfer): string {
    if t.Stored? then t.path else t.temp
  }

  /** No two transfers own a name in common, none owns a file that was there before, every file that was
      there before is as it was, and each transfer's file holds what it received. */
  ghost predicate Safe(w: World, before: Files) {
    && (forall n :: n in before ==> n in w.files && w.files[n] == before[n])
    && (forall i :: i in w.transfers ==> Owned(w.transfers[i]) <= w.files.Keys - before.Keys)
    && (forall i, j :: i in w.transfers && j in w.transfers && i != j ==>
          Owned(w.transfers[i]) !! Owned(w.transfers[j]))
    && (forall i :: i in w.transfers ==> Intact(w, w.transfers[i]))
  }

  predicate Intact(w: World, t: Transfer) {
    && (t.Holding? ==> t.temp != t.path)
    && Body(t) in w.files && w.files[Body(t)] == t.content
  }

  function Mine(w: World, id: TransferId): set<string> {
    if id in w.transfers then Owned(w.transfers[id]) else {}
  }

  /** A step that touches only names its transfer owns, and takes only names that were free, is safe. */
  lemma OwnChangeIsSafe(w: World, now: World, id: TransferId, t: Transfer, before: Files)
    requires Safe(w, before) && now.transfers == w.transfers[id := t]
    requires forall n :: n in w.files && n !in Mine(w, id) ==> n in now.files && now.files[n] == w.files[n]
    requires forall n :: n in Owned(t) ==> n in now.files && (n in Mine(w, id) || n !in w.files)
    requires Intact(now, t)
    ensures Safe(now, before)
  {
    forall i | i in w.transfers && i != id ensures Owned(w.transfers[i]) !! Owned(t) && Intact(now, w.transfers[i]) {
      assert id in w.transfers ==> Owned(w.transfers[i]) !! Owned(w.transfers[id]);
      assert Body(w.transfers[i]) in Owned(w.transfers[i]);
    }
    forall i | i in now.transfers ensures Owned(now.transfers[i]) <= now.files.Keys - before.Keys {
    }
  }

  /** What a step of a transfer changes, given only that transfer's own part of `Safe`. */
  lemma TransferStep(w: World, host: Host, a: Action)
    requires !a.Stranger? && Act(w, host, a) != w
    requires a.id in w.transfers ==> Intact(w, w.transfers[a.id]) && Owned(w.transfers[a.id]) <= w.files.Keys
    ensures var now := Act(w, host, a);
            && a.id in now.transfers && now.transfers == w.transfers[a.id := now.transfers[a.id]]
            && (forall n :: n in w.files && n !in Mine(w, a.id) ==> n in now.files && now.files[n] == w.files[n])
            && (forall n :: n in Owned(now.transfers[a.id]) ==> n in now.files && (n in Mine(w, a.id) || n !in w.files))
            && Intact(now, now.transfers[a.id])
  {
    match a
    case OpenTemp(id, temp) =>
    case Append(id, data) =>
    case Verified(id, name) =>
    case Try(id) => TryStep(w, host, id);
    case Rename(id) =>
    case RenameFails(id, removed) =>
  }

  lemma TryStep(w: World, host: Host, id: TransferId)
    requires id in w.transfers && w.transfers[id].Looking?
    requires Intact(w, w.transfers[id]) && Owned(w.transfers[id]) <= w.files.Keys
    ensures var now := TryNext(w, host, id);
            && id in now.transfers && now.transfers == w.transfers[id := now.transfers[id]]
            && (forall n :: n in w.files ==> n in now.files && now.files[n] == w.files[n])
            && (forall n :: n in Owned(now.transfers[id]) ==> n in now.files && (n in Mine(w, id) || n !in w.files))
            && Intact(now, now.transfers[id])
  {
  }

  lemma ActKeepsSafe(w: World, host: Host, a: Action, before: Files)
    requires Safe(w, before)
    ensures Safe(Act(w, host, a), before)
  {
    if a.Stranger? {
      StrangerKeepsSafe(w, host, a, before);
    } else if Act(w, host, a) != w {
      TransferStep(w, host, a);
      OwnChangeIsSafe(w, Act(w, host, a), a.id, Act(w, host, a).transfers[a.id], before);
    }
  }

  lemma StrangerKeepsSafe(w: World, host: Host, a: Action, before: Files)
    requires a.Stranger? && Safe(w, before)
    ensures Safe(Act(w, host, a), before)
  {
    assert forall i :: i in w.transfers ==> Intact(Act(w, host, a), w.transfers[i]);
  }

  function Run(w: World, host: Host, run: seq<Action>): World {
    if run == [] then w else Act(Run(w, host, run[..|run| - 1]), host, run[|run| - 1])
  }

  /** Over every interleaving of any number of transfers, failed promotions included, and of programs that
      create files, no file that was in the directory is altered, no two transfers are given one name, and
      every stored file holds exactly what its own transfer received. */
  lemma {:induction false} NothingIsOverwritten(before: Files, host: Host, run: seq<Action>)
    ensures Safe(Run(World(before, map[]), host, run), before)
  {
    if run != [] {
      NothingIsOverwritten(before, host, run[..|run| - 1]);
      ActKeepsSafe(Run(World(before, map[]), host, run[..|run| - 1]), host, run[|run| - 1], before);
    }
  }
}
