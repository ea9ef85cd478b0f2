/** The observable trace of one build: collaborator calls and log lines, in order. */
module Events {
  import opened Wrappers

  datatype Event =
    | ValidateName(name: string)
    | QueryImageId(name: string)
    | CreateArchive(name: string)
    | EngineBuild(name: string, archive: string, dockerfileName: Nullable<string>,
                  forceRemove: bool, noCache: bool, args: map<string, string>)
    | EngineRemove(id: string, force: bool)
    | LogInfo(line: string)
    | LogWarn(line: string)

  /** The kinds of event a property singles out: the calls that touch images, and the log lines. */
  datatype Kind = Query | Build | Removal | Info | Warning

  predicate Is(e: Event, k: Kind) {
    match k
    case Query => e.QueryImageId?
    case Build => e.EngineBuild?
    case Removal => e.EngineRemove?
    case Info => e.LogInfo?
    case Warning => e.LogWarn?
  }

  /** The number of events of kind `k` in `t`. */
  function Count(t: seq<Event>, k: Kind): nat {
    if t == [] then 0 else Count(t[..|t| - 1], k) + (if Is(t[|t| - 1], k) then 1 else 0)
  }

  /** Counting in a trace extended by one event. */
  lemma CountSnoc(t: seq<Event>, e: Event, k: Kind)
    ensures Count(t + [e], k) == Count(t, k) + (if Is(e, k) then 1 else 0)
  {
    assert (t + [e])[..|t|] == t;
  }

  /** A kind that does not occur is counted zero times, and conversely. */
  lemma {:induction false} CountZero(t: seq<Event>, k: Kind)
    ensures Count(t, k) == 0 <==> forall e | e in t :: !Is(e, k)
  {
    if t != [] {
      var s := t[..|t| - 1];
      CountZero(s, k);
      assert t == s + [t[|t| - 1]];
    }
  }

  /** The only event of a kind that occurs once is the one at its position. */
  lemma {:induction false} OnlyOne(t: seq<Event>, k: Kind, p: nat)
    requires p < |t| && Is(t[p], k) && Count(t, k) == 1
    ensures forall j | 0 <= j < |t| && Is(t[j], k) :: j == p
  {
    var s := t[..|t| - 1];
    assert t == s + [t[|t| - 1]];
    if p == |t| - 1 {
      CountZero(s, k);
      assert forall j | 0 <= j < |s| :: t[j] == s[j] && s[j] in s;
    } else {
      assert t[p] == s[p] && s[p] in s;
      CountZero(s, k);
      OnlyOne(s, k, p);
    }
  }

  /** Counted once when `present` and at position `p`, zero times otherwise. */
  lemma AtMostAt(t: seq<Event>, k: Kind, present: bool, p: int)
    requires Count(t, k) == if present then 1 else 0
    requires present ==> 0 <= p < |t| && Is(t[p], k)
    ensures forall j | 0 <= j < |t| && Is(t[j], k) :: present && j == p
  {
    if present {
      OnlyOne(t, k, p);
    } else {
      CountZero(t, k);
      assert forall j | 0 <= j < |t| :: t[j] in t;
    }
  }

  /** Java's string conversion of a possibly null string. */
  function Show(s: Nullable<string>): string {
    match s
    case Null => "null"
    case NonNull(v) => v
  }
}
