/** What each chat client should be sent, read off the global log alone. */
module ChatLog {
  import opened Chat

  function Last(log: seq<Entry>): Entry
    requires log != []
  {
    log[|log| - 1]
  }

  function Init(log: seq<Entry>): seq<Entry>
    requires log != []
  {
    log[..|log| - 1]
  }

  /** Whether `c` has joined and not left. */
  predicate InChatAfter(log: seq<Entry>, c: Context) {
    log != [] &&
    if Last(log).who != c || Last(log).Said? then InChatAfter(Init(log), c) else Last(log).Joined?
  }

  predicate Silent(log: seq<Entry>, c: Context) {
    forall k :: 0 <= k < |log| ==> log[k].who != c
  }

  /** The nickname `c` joined under. */
  function NickAfter(log: seq<Entry>, c: Context): string {
    if log == [] then ""
    else if Last(log).who == c && Last(log).Joined? then Last(log).nick
    else NickAfter(Init(log), c)
  }

  /** A client joins once, speaks and leaves only while in the chat, and always under the nickname
      it joined with. */
  predicate WellFormed(log: seq<Entry>) {
    log == [] ||
    (&& WellFormed(Init(log))
     && var e := Last(log);
        if e.Joined? then Silent(Init(log), e.who)
        else InChatAfter(Init(log), e.who) && e.nick == NickAfter(Init(log), e.who))
  }

  /** Whether `c` is sent entry `e` when it is logged after `before`: every join and leave while it
      is in the chat, its own included, and every line of the others. */
  predicate Hears(before: seq<Entry>, e: Entry, c: Context) {
    if e.Joined? then e.who == c || InChatAfter(before, c)
    else if e.Said? then e.who != c && InChatAfter(before, c)
    else InChatAfter(before, c)
  }

  function Lines(before: seq<Entry>, e: Entry, c: Context): seq<string> {
    (if e.Joined? && e.who == c then [Welcome(e.nick)] else [])
    + if Hears(before, e, c) then [Render(e)] else []
  }

  /** Everything the log owes to `c`, in order. */
  function View(log: seq<Entry>, c: Context): seq<string> {
    if log == [] then [] else View(Init(log), c) + Lines(Init(log), Last(log), c)
  }

  // ---- Order of a session -------------------------------------------------------------

  lemma {:induction false} SilentSession(log: seq<Entry>, c: Context)
    requires Silent(log, c)
    ensures !InChatAfter(log, c) && View(log, c) == []
  {
    if log != [] {
      assert Last(log).who != c;
      assert Silent(Init(log), c) by {
        assert forall k :: 0 <= k < |Init(log)| ==> Init(log)[k] == log[k];
      }
      SilentSession(Init(log), c);
    }
  }

  lemma {:induction false} WellFormedPrefix(log: seq<Entry>, k: nat)
    requires WellFormed(log) && k <= |log|
    ensures WellFormed(log[..k])
  {
    if k < |log| {
      WellFormedPrefix(Init(log), k);
      assert Init(log)[..k] == log[..k];
    } else {
      assert log[..k] == log;
    }
  }

  /** Once `c` has left, it is not in the chat again; once it has joined, its nickname stays. */
  lemma {:induction false} AfterEntry(log: seq<Entry>, i: nat)
    requires WellFormed(log) && i < |log|
    ensures NickAfter(log, log[i].who) == log[i].nick
    ensures log[i].Left? ==> !InChatAfter(log, log[i].who)
    ensures InChatAfter(log, log[i].who) ==> !log[i].Left?
  {
    if i < |log| - 1 {
      AfterEntry(Init(log), i);
      assert Init(log)[i] == log[i];
    }
  }

  /** The order of one client's entries: the join comes first and only once, nothing follows the
      leave, and the nickname never changes. */
  lemma SessionOrder(log: seq<Entry>, i: nat, j: nat)
    requires WellFormed(log) && i < j < |log| && log[i].who == log[j].who
    ensures !log[j].Joined? && !log[i].Left? && log[i].nick == log[j].nick
  {
    WellFormedPrefix(log, j + 1);
    var p := log[..j + 1];
    assert Init(p)[i] == log[i] && Last(p) == log[j];
    AfterEntry(Init(p), i);
  }

  lemma {:induction false} ChatNeedsJoin(log: seq<Entry>, c: Context) returns (k: nat)
    requires InChatAfter(log, c)
    ensures k < |log| && log[k].Joined? && log[k].who == c
  {
    if Last(log).who != c || Last(log).Said? {
      k := ChatNeedsJoin(Init(log), c);
    } else {
      k := |log| - 1;
    }
  }

  /** Every line and every leave comes after the client's own join. */
  lemma JoinFirst(log: seq<Entry>, j: nat) returns (k: nat)
    requires WellFormed(log) && j < |log| && !log[j].Joined?
    ensures k < j && log[k] == Joined(log[j].who, log[j].nick)
  {
    WellFormedPrefix(log, j + 1);
    var p := log[..j + 1];
    assert Last(p) == log[j] && Init(p) == log[..j];
    k := ChatNeedsJoin(log[..j], log[j].who);
    SessionOrder(log, k, j);
  }

  // ---- Common order -------------------------------------------------------------------

  /** The log positions of the broadcasts sent to `c`, in the order they were sent. */
  function Heard(log: seq<Entry>, c: Context): seq<nat> {
    if log == [] then [] else
      Heard(Init(log), c) + if Hears(Init(log), Last(log), c) then [|log| - 1] else []
  }

  predicate Below(ks: seq<nat>, n: nat) {
    forall i :: 0 <= i < |ks| ==> ks[i] < n
  }

  /** What the entries at the positions `ks` say to `c`. */
  function LinesAt(log: seq<Entry>, ks: seq<nat>, c: Context): seq<string>
    requires Below(ks, |log|)
  {
    if ks == [] then [] else
      var k := ks[|ks| - 1];
      LinesAt(log, ks[..|ks| - 1], c) + Lines(log[..k], log[k], c)
  }

  lemma {:induction false} HeardBelow(log: seq<Entry>, c: Context)
    ensures Below(Heard(log, c), |log|)
    ensures forall i, j :: 0 <= i < j < |Heard(log, c)| ==> Heard(log, c)[i] < Heard(log, c)[j]
  {
    if log != [] {
      HeardBelow(Init(log), c);
    }
  }

  /** `c` is sent the entries it should hear and no others, each once and in log order. */
  lemma {:induction false} HeardExactly(log: seq<Entry>, c: Context)
    ensures forall k :: k in Heard(log, c) <==> 0 <= k < |log| && Hears(log[..k], log[k], c)
    ensures forall i, j :: 0 <= i < j < |Heard(log, c)| ==> Heard(log, c)[i] < Heard(log, c)[j]
  {
    HeardBelow(log, c);
    if log != [] {
      HeardExactly(Init(log), c);
      assert forall k :: 0 <= k < |log| - 1 ==> Init(log)[..k] == log[..k] && Init(log)[k] == log[k];
      assert log[..|log| - 1] == Init(log);
    }
  }

  lemma {:induction false} LinesAtPrefix(log: seq<Entry>, ks: seq<nat>, c: Context)
    requires log != [] && Below(ks, |log| - 1)
    ensures LinesAt(log, ks, c) == LinesAt(Init(log), ks, c)
  {
    if ks != [] {
      var k := ks[|ks| - 1];
      LinesAtPrefix(log, ks[..|ks| - 1], c);
      assert Init(log)[..k] == log[..k];
    }
  }

  /** What `c` is owed is exactly what those log positions say. */
  lemma {:induction false} ViewIsHeard(log: seq<Entry>, c: Context)
    ensures Below(Heard(log, c), |log|) && View(log, c) == LinesAt(log, Heard(log, c), c)
  {
    hide Lines, Hears;
    HeardBelow(log, c);
    if log != [] {
      var ks := Heard(Init(log), c);
      HeardBelow(Init(log), c);
      ViewIsHeard(Init(log), c);
      LinesAtPrefix(log, ks, c);
      if Hears(Init(log), Last(log), c) {
        var all := ks + [|log| - 1];
        assert all[..|all| - 1] == ks;
        assert log[..|log| - 1] == Init(log);
      } else {
        UnheardSaysNothing(Init(log), Last(log), c);
        assert Heard(log, c) == ks;
        assert View(log, c) == View(Init(log), c);
      }
    }
  }

  lemma UnheardSaysNothing(before: seq<Entry>, e: Entry, c: Context)
    requires !Hears(before, e, c)
    ensures Lines(before, e, c) == []
  {
  }

  /** Any two clients see the broadcasts they both get in the same order. */
  lemma CommonOrder(log: seq<Entry>, c: Context, d: Context, i: nat, j: nat, k: nat, l: nat)
    requires i < |Heard(log, c)| && j < |Heard(log, c)| && k < |Heard(log, d)| && l < |Heard(log, d)|
    requires Heard(log, c)[i] == Heard(log, d)[k] && Heard(log, c)[j] == Heard(log, d)[l]
    ensures i < j <==> k < l
  {
    HeardExactly(log, c);
    HeardExactly(log, d);
  }
}
