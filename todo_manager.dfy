/**
 * The TODO collection of src/todo_manager.py.
 *
 * `TodoManager` owns the list of items, the set of ids already announced as
 * due today and the map from id to the verification code a recurring item
 * waits for. Its two QTimers are the fixed one-minute check timer (a flag)
 * and the single-shot midnight timer (an `Alarm`). Signals are appended to
 * a ghost log; `datetime.now()` is the `now` parameter and `random.choices`
 * the `picks` parameter.
 */
module Todos {
  import opened Common
  import opened TodoModel

  /** The check timer's interval. */
  const CheckIntervalMs := 60 * 1000

  const CodeLength := 8

  /** The number of characters in `string.ascii_uppercase + string.digits`. */
  const AlphabetSize := 36

  /** Character k of `string.ascii_uppercase + string.digits`. */
  function CodeChar(k: int): char
    requires 0 <= k < AlphabetSize
  {
    if k < 26 then ('A' as int + k) as char else DigitChar(k - 26)
  }

  datatype Event =
    | TodoDue(item: TodoItem)
    | TodoCompleted(item: TodoItem)
    | TodosChanged
    | VerificationRequired(item: TodoItem, code: string)

  // ---------------------------------------------------------------------------
  // Verification codes
  // ---------------------------------------------------------------------------

  predicate IsCodeChar(ch: char)
  {
    'A' <= ch <= 'Z' || '0' <= ch <= '9'
  }

  /** Eight characters, each an ASCII capital or a digit. */
  predicate ValidCode(code: string)
  {
    |code| == CodeLength && forall i :: 0 <= i < |code| ==> IsCodeChar(code[i])
  }

  /** Eight positions in the alphabet, as `random.choices(chars, k=8)` draws them. */
  predicate ValidPicks(picks: seq<int>)
  {
    |picks| == CodeLength && forall i :: 0 <= i < |picks| ==> 0 <= picks[i] < AlphabetSize
  }

  /** `_generate_verification_code`, given the positions drawn. */
  function GenerateCode(picks: seq<int>): (code: string)
    requires ValidPicks(picks)
    ensures ValidCode(code)
  {
    seq(CodeLength, i requires 0 <= i < CodeLength => CodeChar(picks[i]))
  }

  function UpperChar(ch: char): char
  {
    if 'a' <= ch <= 'z' then (ch as int - 32) as char else ch
  }

  function LowerChar(ch: char): char
  {
    if 'A' <= ch <= 'Z' then (ch as int + 32) as char else ch
  }

  /** `str.upper()` on ASCII letters. */
  function Upper(s: string): string
  {
    seq(|s|, i requires 0 <= i < |s| => UpperChar(s[i]))
  }

  function Lower(s: string): string
  {
    seq(|s|, i requires 0 <= i < |s| => LowerChar(s[i]))
  }

  /** `entered_code.upper() == expected_code.upper()`. */
  predicate CodesMatch(entered: string, expected: string)
  {
    Upper(entered) == Upper(expected)
  }

  /**
   * Against a valid code, an entry matches exactly when it has eight
   * characters that equal the code's up to the case of letters.
   */
  lemma CodesMatchRule(entered: string, code: string)
    requires ValidCode(code)
    ensures CodesMatch(entered, code) <==>
      |entered| == CodeLength && forall i :: 0 <= i < CodeLength ==> UpperChar(entered[i]) == code[i]
    ensures CodesMatch(code, code) && CodesMatch(Lower(code), code)
  {
    assert Upper(code) == code;
    if CodesMatch(entered, code) {
      assert forall i :: 0 <= i < CodeLength ==> UpperChar(entered[i]) == Upper(entered)[i];
    }
  }

  // ---------------------------------------------------------------------------
  // Lists
  // ---------------------------------------------------------------------------

  /** The elements of s that satisfy p, in their order. */
  function Filter<T(!new)>(s: seq<T>, p: T -> bool): (r: seq<T>)
    ensures |r| <= |s|
    ensures forall x :: x in r <==> x in s && p(x)
  {
    if s == [] then []
    else
      assert s == s[..|s| - 1] + [s[|s| - 1]];
      Filter(s[..|s| - 1], p) + (if p(s[|s| - 1]) then [s[|s| - 1]] else [])
  }

  /** Filtering keeps order: the survivors of a + b are those of a followed by those of b. */
  lemma {:induction false} FilterAppend<T(!new)>(a: seq<T>, b: seq<T>, p: T -> bool)
    ensures Filter(a + b, p) == Filter(a, p) + Filter(b, p)
    decreases |b|
  {
    if b != [] {
      var b' := b[..|b| - 1];
      assert (a + b)[..|a + b| - 1] == a + b';
      assert (a + b)[|a + b| - 1] == b[|b| - 1];
      FilterAppend(a, b', p);
    } else {
      assert a + b == a;
    }
  }

  /** Filtering a list none of whose elements is dropped gives the list back. */
  lemma {:induction false} FilterKeepsAll<T(!new)>(s: seq<T>, p: T -> bool)
    requires forall i :: 0 <= i < |s| ==> p(s[i])
    ensures Filter(s, p) == s
    decreases |s|
  {
    if s != [] {
      var q := s[..|s| - 1];
      assert forall i :: 0 <= i < |q| ==> q[i] == s[i];
      FilterKeepsAll(q, p);
      assert p(s[|s| - 1]);
      assert s == q + [s[|s| - 1]];
    }
  }

  function Ids(todos: seq<TodoItem>): set<string>
  {
    set t | t in todos :: t.id
  }

  predicate UniqueIds(todos: seq<TodoItem>)
  {
    forall i, j :: 0 <= i < j < |todos| ==> todos[i].id != todos[j].id
  }

  predicate AllParse(todos: seq<TodoItem>)
  {
    forall i :: 0 <= i < |todos| ==> ScheduleParses(todos[i])
  }

  function HasOtherId(id: string): TodoItem -> bool
  {
    (t: TodoItem) => t.id != id
  }

  /** `remove_todo`'s comprehension: the items whose id is not `id`. */
  function WithoutId(todos: seq<TodoItem>, id: string): (r: seq<TodoItem>)
    ensures forall t :: t in r <==> t in todos && t.id != id
    ensures id !in Ids(r)
  {
    Filter(todos, HasOtherId(id))
  }

  /** With no item carrying the id, removing it leaves the list as it was. */
  lemma WithoutAbsentId(todos: seq<TodoItem>, id: string)
    requires id !in Ids(todos)
    ensures WithoutId(todos, id) == todos
  {
    forall i | 0 <= i < |todos|
      ensures HasOtherId(id)(todos[i])
    {
      assert todos[i] in todos;
    }
    FilterKeepsAll(todos, HasOtherId(id));
  }

  function IsDueAt(now: Clock): TodoItem -> bool
  {
    (t: TodoItem) => DueDefined(t) && IsDue(t, now)
  }

  /** `get_pending_todos`: the items due now, in list order. */
  function DueTodos(todos: seq<TodoItem>, now: Clock): (r: seq<TodoItem>)
    requires AllParse(todos)
    ensures forall t :: t in r <==> t in todos && IsDue(t, now)
  {
    Filter(todos, IsDueAt(now))
  }

  function IsRecurringItem(): TodoItem -> bool
  {
    (t: TodoItem) => t.isRecurring
  }

  /** `get_recurring_todos`: the recurring items, in list order. */
  function RecurringTodos(todos: seq<TodoItem>): (r: seq<TodoItem>)
    ensures forall t :: t in r <==> t in todos && t.isRecurring
  {
    Filter(todos, IsRecurringItem())
  }

  /** The position of the first item with the id, or |todos| when there is none. */
  function FindIndex(todos: seq<TodoItem>, id: string): (k: nat)
    ensures k <= |todos|
    ensures k < |todos| ==> todos[k].id == id
    ensures forall j :: 0 <= j < k ==> todos[j].id != id
  {
    if todos == [] then 0
    else if todos[0].id == id then 0
    else 1 + FindIndex(todos[1..], id)
  }

  lemma FindIndexAbsent(todos: seq<TodoItem>, id: string)
    ensures FindIndex(todos, id) == |todos| <==> id !in Ids(todos)
  {
    var k := FindIndex(todos, id);
    if k < |todos| {
      assert todos[k] in todos;
    } else {
      assert id !in Ids(todos);
    }
  }

  /** `update_todo`'s list: the first item with the new item's id replaced by it. */
  function ReplaceFirst(todos: seq<TodoItem>, t: TodoItem): seq<TodoItem>
  {
    var k := FindIndex(todos, t.id);
    if k < |todos| then todos[k := t] else todos
  }

  /**
   * Updating replaces the first item with a matching id and nothing else; the
   * list keeps its length, and with no matching id it is left as it was.
   */
  lemma ReplaceFirstRule(todos: seq<TodoItem>, t: TodoItem, k: nat)
    requires k < |todos| && todos[k].id == t.id
    requires forall j :: 0 <= j < k ==> todos[j].id != t.id
    ensures ReplaceFirst(todos, t) == todos[k := t]
    ensures Ids(ReplaceFirst(todos, t)) == Ids(todos)
  {
    var r := todos[k := t];
    forall x | x in Ids(todos)
      ensures x in Ids(r)
    {
      var u :| u in todos && u.id == x;
      var j :| 0 <= j < |todos| && todos[j] == u;
      if j == k {
        assert r[k] in r;
      } else {
        assert r[j] in r;
      }
    }
    forall x | x in Ids(r)
      ensures x in Ids(todos)
    {
      var u :| u in r && u.id == x;
      var j :| 0 <= j < |r| && r[j] == u;
      assert todos[j] in todos;
    }
  }

  lemma ReplaceFirstAbsent(todos: seq<TodoItem>, t: TodoItem)
    requires t.id !in Ids(todos)
    ensures ReplaceFirst(todos, t) == todos
  {
    FindIndexAbsent(todos, t.id);
  }

  // ---------------------------------------------------------------------------
  // The periodic check
  // ---------------------------------------------------------------------------

  /** An item as the check leaves it: reset first if it was not yet reset today. */
  function Refresh(t: TodoItem, today: int): (r: TodoItem)
    ensures r.id == t.id && r.isRecurring == t.isRecurring && r.scheduledTime == t.scheduledTime
    ensures !NeedsReset(r, today)
    ensures t.isRecurring ==> r.lastResetDate == Some(today)
    ensures !t.isRecurring ==> r == t
    ensures ScheduleParses(t) ==> ScheduleParses(r)
  {
    if NeedsReset(t, today) then ResetForNewDay(t, today) else t
  }

  /** What the check does to a list, to the notified set, and the signals it emits. */
  datatype Checked = Checked(todos: seq<TodoItem>, notified: set<string>, events: seq<Event>)

  /**
   * One pass of `_check_todos`'s loop body: reset the item if it needs it and
   * forget that it was announced; then announce it if it is due and was not
   * announced yet.
   */
  function CheckItem(t: TodoItem, notified: set<string>, now: Clock): (c: Checked)
    requires ScheduleParses(t)
    ensures c.todos == [Refresh(t, now.day)]
    ensures c.notified - {t.id} == notified - {t.id}
    ensures IsDue(Refresh(t, now.day), now) ==> t.id in c.notified
    ensures t.id in c.notified ==> IsDue(Refresh(t, now.day), now) || (t.id in notified && !NeedsReset(t, now.day))
    ensures forall e :: e in c.events ==> e == TodosChanged || (e == TodoDue(Refresh(t, now.day)) && IsDue(e.item, now))
    ensures !NeedsReset(t, now.day) ==> notified <= c.notified && forall e :: e in c.events ==> e.TodoDue? && t.id !in notified
  {
    var t' := Refresh(t, now.day);
    var reset := NeedsReset(t, now.day);
    var n := if reset then notified - {t.id} else notified;
    var e := if reset then [TodosChanged] else [];
    if IsDue(t', now) && t.id !in n then Checked([t'], n + {t.id}, e + [TodoDue(t')])
    else Checked([t'], n, e)
  }

  /** `_check_todos` over a whole list, item by item from the front. */
  function CheckAll(todos: seq<TodoItem>, notified: set<string>, now: Clock): (r: Checked)
    requires AllParse(todos)
    ensures |r.todos| == |todos|
    ensures forall i :: 0 <= i < |todos| ==> r.todos[i] == Refresh(todos[i], now.day)
    decreases |todos|
  {
    if todos == [] then Checked([], notified, [])
    else
      var r := CheckAll(todos[..|todos| - 1], notified, now);
      var c := CheckItem(todos[|todos| - 1], r.notified, now);
      Checked(r.todos + c.todos, c.notified, r.events + c.events)
  }

  /** After a check every recurring item is marked as reset today, so none needs a reset. */
  lemma CheckResetsRecurring(todos: seq<TodoItem>, notified: set<string>, now: Clock)
    requires AllParse(todos)
    ensures var r := CheckAll(todos, notified, now);
      && AllParse(r.todos)
      && (forall i :: 0 <= i < |todos| && todos[i].isRecurring ==> r.todos[i].lastResetDate == Some(now.day))
      && (forall i :: 0 <= i < |todos| ==> !NeedsReset(r.todos[i], now.day))
      && (forall i :: 0 <= i < |todos| && !todos[i].isRecurring ==> r.todos[i] == todos[i])
  {
  }

  /** With distinct ids, every item that is due after a check has its id in the notified set. */
  lemma {:induction false} CheckNotifiesDue(todos: seq<TodoItem>, notified: set<string>, now: Clock)
    requires AllParse(todos) && UniqueIds(todos)
    ensures var r := CheckAll(todos, notified, now);
      forall i :: 0 <= i < |todos| && IsDue(r.todos[i], now) ==> todos[i].id in r.notified
    decreases |todos|
  {
    if todos != [] {
      var n := |todos| - 1;
      var pre := todos[..n];
      CheckNotifiesDue(pre, notified, now);
      var rp := CheckAll(pre, notified, now);
      var c := CheckItem(todos[n], rp.notified, now);
      var r := CheckAll(todos, notified, now);
      assert r.notified == c.notified;
      forall i | 0 <= i < |todos| && IsDue(r.todos[i], now)
        ensures todos[i].id in r.notified
      {
        if i < n {
          assert r.todos[i] == rp.todos[i];
          assert pre[i] == todos[i];
          assert todos[i].id != todos[n].id;
        }
      }
    }
  }

  /** The notified set grows only by ids of items that are due after the check. */
  lemma {:induction false} CheckNotifiedWithin(todos: seq<TodoItem>, notified: set<string>, now: Clock)
    requires AllParse(todos)
    ensures var r := CheckAll(todos, notified, now);
      AllParse(r.todos) && r.notified <= notified + Ids(DueTodos(r.todos, now))
    decreases |todos|
  {
    var r := CheckAll(todos, notified, now);
    CheckResetsRecurring(todos, notified, now);
    if todos != [] {
      var n := |todos| - 1;
      var pre := todos[..n];
      CheckNotifiedWithin(pre, notified, now);
      var rp := CheckAll(pre, notified, now);
      CheckResetsRecurring(pre, notified, now);
      var t' := Refresh(todos[n], now.day);
      assert r.todos == rp.todos + [t'];
      forall x | x in r.notified
        ensures x in notified + Ids(DueTodos(r.todos, now))
      {
        if x == todos[n].id && x in r.notified && IsDue(t', now) {
          assert t' in r.todos;
          assert t' in DueTodos(r.todos, now);
        } else {
          assert x in rp.notified;
          if x !in notified {
            var u :| u in DueTodos(rp.todos, now) && u.id == x;
            assert u in r.todos;
            assert u in DueTodos(r.todos, now);
          }
        }
      }
    }
  }

  /** Every due signal of a check carries an item of the resulting list that is due. */
  lemma {:induction false} CheckEventsAreDueItems(todos: seq<TodoItem>, notified: set<string>, now: Clock)
    requires AllParse(todos)
    ensures var r := CheckAll(todos, notified, now);
      AllParse(r.todos) &&
      forall e :: e in r.events ==> e == TodosChanged || (e.TodoDue? && e.item in r.todos && IsDue(e.item, now))
    decreases |todos|
  {
    CheckResetsRecurring(todos, notified, now);
    if todos != [] {
      var n := |todos| - 1;
      CheckEventsAreDueItems(todos[..n], notified, now);
      var r := CheckAll(todos, notified, now);
      var rp := CheckAll(todos[..n], notified, now);
      CheckResetsRecurring(todos[..n], notified, now);
      assert r.todos == rp.todos + [Refresh(todos[n], now.day)];
      forall e | e in r.events && e != TodosChanged
        ensures e.TodoDue? && e.item in r.todos && IsDue(e.item, now)
      {
        if e in rp.events {
          assert e.item in rp.todos;
        }
      }
    }
  }

  /**
   * When no item needs a reset, the check leaves the list as it is, only adds
   * to the notified set, and announces only items whose ids were not in it.
   */
  lemma {:induction false} CheckWithoutResets(todos: seq<TodoItem>, notified: set<string>, now: Clock)
    requires AllParse(todos)
    requires forall i :: 0 <= i < |todos| ==> !NeedsReset(todos[i], now.day)
    ensures var r := CheckAll(todos, notified, now);
      && r.todos == todos
      && notified <= r.notified
      && forall e :: e in r.events ==> e.TodoDue? && e.item.id !in notified
    decreases |todos|
  {
    if todos != [] {
      var n := |todos| - 1;
      CheckWithoutResets(todos[..n], notified, now);
      assert todos == todos[..n] + [todos[n]];
      var rp := CheckAll(todos[..n], notified, now);
      var c := CheckItem(todos[n], rp.notified, now);
      forall e | e in c.events
        ensures e.TodoDue? && e.item.id !in notified
      {
        assert e.item == todos[n];
      }
    }
  }

  /**
   * Announced at most once a day: with distinct ids, a second check on the
   * same day announces none of the items the first check announced.
   */
  lemma NotifiedOncePerDay(todos: seq<TodoItem>, notified: set<string>, first: Clock, second: Clock)
    requires AllParse(todos) && UniqueIds(todos) && first.day == second.day
    ensures var r1 := CheckAll(todos, notified, first);
      AllParse(r1.todos) &&
      var r2 := CheckAll(r1.todos, r1.notified, second);
      forall e1, e2 :: e1 in r1.events && e2 in r2.events && e1.TodoDue? && e2.TodoDue? ==> e1.item.id != e2.item.id
  {
    var r1 := CheckAll(todos, notified, first);
    CheckResetsRecurring(todos, notified, first);
    CheckNotifiesDue(todos, notified, first);
    CheckEventsAreDueItems(todos, notified, first);
    CheckWithoutResets(r1.todos, r1.notified, second);
    var r2 := CheckAll(r1.todos, r1.notified, second);
    forall e1 | e1 in r1.events && e1.TodoDue?
      ensures e1.item.id in r1.notified
    {
      var i :| 0 <= i < |r1.todos| && r1.todos[i] == e1.item;
      assert IsDue(r1.todos[i], first);
    }
  }

  /** The due signals for a list of items, in order. */
  function DueEvents(items: seq<TodoItem>): (r: seq<Event>)
    ensures |r| == |items|
  {
    seq(|items|, i requires 0 <= i < |items| => TodoDue(items[i]))
  }

  /**
   * A check that resets nothing, over items with distinct ids none of which
   * was announced yet, announces exactly `get_pending_todos`, in list order.
   */
  lemma {:induction false} CheckAnnouncesPending(todos: seq<TodoItem>, notified: set<string>, now: Clock)
    requires AllParse(todos) && UniqueIds(todos)
    requires forall i :: 0 <= i < |todos| ==> !NeedsReset(todos[i], now.day) && todos[i].id !in notified
    ensures CheckAll(todos, notified, now).events == DueEvents(DueTodos(todos, now))
    decreases |todos|
  {
    if todos != [] {
      var n := |todos| - 1;
      var pre, last := todos[..n], todos[n];
      assert todos == pre + [last];
      CheckAnnouncesPending(pre, notified, now);
      CheckNotifiedWithin(pre, notified, now);
      DueIdsListed(pre, now);
      assert last.id !in Ids(pre);
      var rp := CheckAll(pre, notified, now);
      PendingItemEvents(last, rp.notified, now);
      DueSnoc(pre, last, now);
    } else {
      assert DueTodos(todos, now) == [];
    }
  }

  /** An item that needs no reset and was not announced yields exactly its own due event, if any. */
  lemma PendingItemEvents(t: TodoItem, notified: set<string>, now: Clock)
    requires ScheduleParses(t) && !NeedsReset(t, now.day) && t.id !in notified
    ensures CheckItem(t, notified, now).events == DueEvents(if IsDue(t, now) then [t] else [])
  {
    assert Refresh(t, now.day) == t;
  }

  /** Appending one item appends its due event, if any, to the announcements of the list. */
  lemma DueSnoc(pre: seq<TodoItem>, last: TodoItem, now: Clock)
    requires AllParse(pre) && ScheduleParses(last)
    ensures AllParse(pre + [last])
    ensures DueEvents(DueTodos(pre + [last], now)) == DueEvents(DueTodos(pre, now)) + DueEvents(if IsDue(last, now) then [last] else [])
  {
    var due := if IsDue(last, now) then [last] else [];
    assert (pre + [last])[..|pre|] == pre;
    assert DueTodos(pre + [last], now) == DueTodos(pre, now) + due;
    assert DueEvents(DueTodos(pre, now) + due) == DueEvents(DueTodos(pre, now)) + DueEvents(due);
  }

  /** The ids of the due items are ids of the list. */
  lemma DueIdsListed(todos: seq<TodoItem>, now: Clock)
    requires AllParse(todos)
    ensures Ids(DueTodos(todos, now)) <= Ids(todos)
  {
    forall x | x in Ids(DueTodos(todos, now))
      ensures x in Ids(todos)
    {
      var u :| u in DueTodos(todos, now) && u.id == x;
      assert u in todos;
    }
  }

  /** With distinct ids, the notified set after a check from an empty set holds exactly the ids of the due items. */
  lemma CheckFromNothing(todos: seq<TodoItem>, now: Clock)
    requires AllParse(todos) && UniqueIds(todos)
    ensures var r := CheckAll(todos, {}, now);
      AllParse(r.todos) && r.notified == Ids(DueTodos(r.todos, now))
  {
    var r := CheckAll(todos, {}, now);
    CheckNotifiedWithin(todos, {}, now);
    CheckNotifiesDue(todos, {}, now);
    forall x | x in Ids(DueTodos(r.todos, now))
      ensures x in r.notified
    {
      var u :| u in DueTodos(r.todos, now) && u.id == x;
      var i :| 0 <= i < |r.todos| && r.todos[i] == u;
      assert todos[i].id == x;
    }
  }

  // ---------------------------------------------------------------------------
  // Midnight
  // ---------------------------------------------------------------------------

  /** `_schedule_midnight_reset`'s delay: from now to 00:00:01 of the next day. */
  function MsUntilMidnight(now: Clock): (ms: int)
    requires now.Valid()
    ensures 1000 < ms <= MsPerDay + 1000
    ensures now.Timestamp() + ms == Clock(now.day + 1, 1000).Timestamp()
  {
    MsPerDay - now.msOfDay + 1000
  }

  function ResetIfRecurring(t: TodoItem, today: int): TodoItem
  {
    if t.isRecurring then ResetForNewDay(t, today) else t
  }

  /** `_check_midnight_reset`'s loop: every recurring item reset. */
  function MidnightReset(todos: seq<TodoItem>, today: int): (r: seq<TodoItem>)
    ensures |r| == |todos|
  {
    seq(|todos|, i requires 0 <= i < |todos| => ResetIfRecurring(todos[i], today))
  }

  /**
   * At midnight every recurring item becomes pending with no completion time
   * and is marked as reset today; the other items are left as they were.
   */
  lemma MidnightRule(todos: seq<TodoItem>, today: int)
    ensures var r := MidnightReset(todos, today);
      forall i :: 0 <= i < |todos| ==>
        && r[i].id == todos[i].id
        && (todos[i].isRecurring ==> r[i].status == Pending.Value() && r[i].completedAt == None
                                     && r[i].lastResetDate == Some(today) && !NeedsReset(r[i], today))
        && (!todos[i].isRecurring ==> r[i] == todos[i])
    ensures AllParse(todos) ==> AllParse(MidnightReset(todos, today))
    ensures Ids(MidnightReset(todos, today)) == Ids(todos)
  {
    var r := MidnightReset(todos, today);
    forall x | x in Ids(todos)
      ensures x in Ids(r)
    {
      var u :| u in todos && u.id == x;
      var j :| 0 <= j < |todos| && todos[j] == u;
      assert r[j] in r;
    }
    forall x | x in Ids(r)
      ensures x in Ids(todos)
    {
      var u :| u in r && u.id == x;
      var j :| 0 <= j < |r| && r[j] == u;
      assert todos[j] in todos;
    }
  }

  // ---------------------------------------------------------------------------
  // The manager's state and its operations
  // ---------------------------------------------------------------------------

  datatype TodoState = TodoState(
    todos: seq<TodoItem>,
    notified: set<string>,
    pending: map<string, string>,
    checkTimer: bool,
    midnightTimer: Alarm,
    log: seq<Event>)

  const Initial := TodoState([], {}, map[], false, Off, [])

  /**
   * Every recurring schedule parses, only ids of listed items are marked as
   * announced, every pending code is a valid code, and a running midnight
   * timer was started with a delay of at most a day and a second.
   */
  predicate Inv(s: TodoState)
  {
    && AllParse(s.todos)
    && s.notified <= Ids(s.todos)
    && (forall id :: id in s.pending ==> ValidCode(s.pending[id]))
    && (s.midnightTimer.Armed? ==> 1000 < s.midnightTimer.ms <= MsPerDay + 1000)
  }

  function AfterCheck(s: TodoState, now: Clock): TodoState
    requires AllParse(s.todos)
  {
    var r := CheckAll(s.todos, s.notified, now);
    s.(todos := r.todos, notified := r.notified, log := s.log + r.events)
  }

  function AfterSetTodos(s: TodoState, todos: seq<TodoItem>, now: Clock): TodoState
    requires AllParse(todos)
  {
    AfterCheck(s.(todos := todos, notified := {}), now)
  }

  function AfterAdd(s: TodoState, t: TodoItem): TodoState
  {
    s.(todos := s.todos + [t], log := s.log + [TodosChanged])
  }

  function AfterRemove(s: TodoState, id: string): TodoState
  {
    s.(todos := WithoutId(s.todos, id), pending := s.pending - {id}, notified := s.notified - {id},
       log := s.log + [TodosChanged])
  }

  function AfterUpdate(s: TodoState, t: TodoItem): TodoState
  {
    s.(todos := ReplaceFirst(s.todos, t), log := s.log + [TodosChanged])
  }

  /** `_complete_todo` on the item at position k. */
  function AfterComplete(s: TodoState, k: nat, now: Clock): TodoState
    requires k < |s.todos|
  {
    var t := MarkCompleted(s.todos[k], now.Timestamp());
    s.(todos := s.todos[k := t], notified := s.notified - {t.id},
       log := s.log + [TodoCompleted(t), TodosChanged])
  }

  /** `request_completion`: the new state and the returned code, if any. */
  function AfterRequest(s: TodoState, id: string, picks: seq<int>, now: Clock): (TodoState, Option<string>)
    requires ValidPicks(picks)
  {
    var k := FindIndex(s.todos, id);
    if k == |s.todos| then (s, None)
    else if s.todos[k].isRecurring then
      var code := GenerateCode(picks);
      (s.(pending := s.pending[id := code], log := s.log + [VerificationRequired(s.todos[k], code)]), Some(code))
    else (AfterComplete(s, k, now), None)
  }

  /** `verify_and_complete`: the new state and whether the item was completed. */
  function AfterVerify(s: TodoState, id: string, entered: string, now: Clock): (TodoState, bool)
  {
    if id !in s.pending || !CodesMatch(entered, s.pending[id]) then (s, false)
    else
      var k := FindIndex(s.todos, id);
      if k == |s.todos| then (s, false)
      else (AfterComplete(s, k, now).(pending := s.pending - {id}), true)
  }

  function AfterScheduleMidnight(s: TodoState, now: Clock): TodoState
    requires now.Valid()
  {
    s.(midnightTimer := Armed(MsUntilMidnight(now)))
  }

  function AfterStart(s: TodoState, now: Clock): TodoState
    requires AllParse(s.todos) && now.Valid()
  {
    AfterScheduleMidnight(AfterCheck(s, now).(checkTimer := true), now)
  }

  function AfterStop(s: TodoState): TodoState
  {
    s.(checkTimer := false, midnightTimer := Off)
  }

  function AfterMidnight(s: TodoState, now: Clock): TodoState
    requires now.Valid()
  {
    AfterScheduleMidnight(s.(notified := {}, todos := MidnightReset(s.todos, now.day),
                             log := s.log + [TodosChanged]), now)
  }

  /** Removal leaves no item with the id, keeps the others in order and forgets the id's code and announcement. */
  lemma RemoveRule(s: TodoState, id: string, before: seq<TodoItem>, after: seq<TodoItem>)
    requires s.todos == before + after
    ensures var s' := AfterRemove(s, id);
      && id !in Ids(s'.todos) && id !in s'.pending && id !in s'.notified
      && s'.todos == WithoutId(before, id) + WithoutId(after, id)
      && (forall k :: k in s.pending && k != id ==> k in s'.pending && s'.pending[k] == s.pending[k])
      && s'.log == s.log + [TodosChanged]
  {
    FilterAppend(before, after, HasOtherId(id));
  }

  /** Updating with an id no item has changes nothing but the signal. */
  lemma UpdateAbsentRule(s: TodoState, t: TodoItem)
    requires t.id !in Ids(s.todos)
    ensures AfterUpdate(s, t) == s.(log := s.log + [TodosChanged])
  {
    ReplaceFirstAbsent(s.todos, t);
  }

  /** Asking to complete an unknown id returns nothing and changes nothing. */
  lemma RequestUnknownRule(s: TodoState, id: string, picks: seq<int>, now: Clock)
    requires ValidPicks(picks) && id !in Ids(s.todos)
    ensures AfterRequest(s, id, picks, now) == (s, None)
  {
    FindIndexAbsent(s.todos, id);
  }

  /**
   * Asking to complete a recurring item stores and returns a valid code for
   * it and leaves the items as they are; a non-recurring item is completed
   * straight away and nothing is returned.
   */
  lemma RequestKnownRule(s: TodoState, id: string, picks: seq<int>, now: Clock, k: nat)
    requires ValidPicks(picks)
    requires k < |s.todos| && s.todos[k].id == id && forall j :: 0 <= j < k ==> s.todos[j].id != id
    ensures var (s', r) := AfterRequest(s, id, picks, now);
      && (s.todos[k].isRecurring ==>
            && r.Some? && ValidCode(r.value) && id in s'.pending && s'.pending[id] == r.value
            && s'.todos == s.todos && s'.notified == s.notified)
      && (!s.todos[k].isRecurring ==>
            && r == None && s'.pending == s.pending && id !in s'.notified
            && s'.todos == s.todos[k := s'.todos[k]]
            && s'.todos[k].status == Completed.Value() && s'.todos[k].completedAt == Some(now.Timestamp()))
  {
  }

  /** Verifying fails and changes nothing when no code is pending for the id or the entry does not match it. */
  lemma VerifyRejectRule(s: TodoState, id: string, entered: string, now: Clock)
    requires id !in s.pending || !CodesMatch(entered, s.pending[id]) || id !in Ids(s.todos)
    ensures AfterVerify(s, id, entered, now) == (s, false)
  {
    FindIndexAbsent(s.todos, id);
  }

  /**
   * A matching entry for a listed item completes its first item with the id,
   * drops the pending code and the announcement, and reports success.
   */
  lemma VerifyAcceptRule(s: TodoState, id: string, entered: string, now: Clock, k: nat)
    requires id in s.pending && CodesMatch(entered, s.pending[id])
    requires k < |s.todos| && s.todos[k].id == id && forall j :: 0 <= j < k ==> s.todos[j].id != id
    ensures var (s', ok) := AfterVerify(s, id, entered, now);
      && ok && id !in s'.pending && id !in s'.notified
      && s'.pending == s.pending - {id}
      && s'.todos == s.todos[k := MarkCompleted(s.todos[k], now.Timestamp())]
      && s'.log == s.log + [TodoCompleted(s'.todos[k]), TodosChanged]
  {
  }

  /**
   * The two-step completion: after asking to complete a recurring item,
   * typing the returned code, even in lower case, completes it.
   */
  lemma RequestThenVerify(s: TodoState, id: string, picks: seq<int>, now: Clock, later: Clock, k: nat)
    requires ValidPicks(picks)
    requires k < |s.todos| && s.todos[k].id == id && forall j :: 0 <= j < k ==> s.todos[j].id != id
    requires s.todos[k].isRecurring
    ensures var (s1, r) := AfterRequest(s, id, picks, now);
      && r.Some?
      && var (s2, ok) := AfterVerify(s1, id, Lower(r.value), later);
      && ok && id !in s2.pending
      && s2.todos[k].status == Completed.Value() && s2.todos[k].completedAt == Some(later.Timestamp())
  {
    var (s1, r) := AfterRequest(s, id, picks, now);
    CodesMatchRule(Lower(r.value), r.value);
  }

  // ---------------------------------------------------------------------------
  // Runs
  // ---------------------------------------------------------------------------

  /** What can happen to a manager: a call from the app, or a timer firing. */
  datatype Input =
    | UserStart(now: Clock)
    | UserStop
    | UserSetTodos(todos: seq<TodoItem>, now: Clock)
    | UserAdd(item: TodoItem)
    | UserRemove(id: string)
    | UserUpdate(item: TodoItem)
    | UserRequest(id: string, picks: seq<int>, now: Clock)
    | UserVerify(id: string, entered: string, now: Clock)
    | CheckTimeout(now: Clock)
    | MidnightTimeout(now: Clock)

  /** Whether an input can reach the manager: well-formed arguments, and timers fire only while running. */
  predicate Delivered(s: TodoState, i: Input)
  {
    match i
    case UserStart(now) => now.Valid()
    case UserStop => true
    case UserSetTodos(todos, now) => AllParse(todos)
    case UserAdd(t) => ScheduleParses(t)
    case UserRemove(_) => true
    case UserUpdate(t) => ScheduleParses(t)
    case UserRequest(_, picks, _) => ValidPicks(picks)
    case UserVerify(_, _, _) => true
    case CheckTimeout(_) => s.checkTimer
    case MidnightTimeout(now) => s.midnightTimer.Armed? && now.Valid()
  }

  function Step(s: TodoState, i: Input): TodoState
    requires Inv(s) && Delivered(s, i)
  {
    match i
    case UserStart(now) => AfterStart(s, now)
    case UserStop => AfterStop(s)
    case UserSetTodos(todos, now) => AfterSetTodos(s, todos, now)
    case UserAdd(t) => AfterAdd(s, t)
    case UserRemove(id) => AfterRemove(s, id)
    case UserUpdate(t) => AfterUpdate(s, t)
    case UserRequest(id, picks, now) => AfterRequest(s, id, picks, now).0
    case UserVerify(id, entered, now) => AfterVerify(s, id, entered, now).0
    case CheckTimeout(now) => AfterCheck(s, now)
    case MidnightTimeout(now) => AfterMidnight(s, now)
  }

  lemma CheckPreservesInv(s: TodoState, now: Clock)
    requires Inv(s)
    ensures Inv(AfterCheck(s, now))
  {
    var r := CheckAll(s.todos, s.notified, now);
    CheckNotifiedWithin(s.todos, s.notified, now);
    forall x | x in r.notified
      ensures x in Ids(r.todos)
    {
      if x in s.notified {
        var u :| u in s.todos && u.id == x;
        var j :| 0 <= j < |s.todos| && s.todos[j] == u;
        assert r.todos[j] in r.todos;
      } else {
        var u :| u in DueTodos(r.todos, now) && u.id == x;
      }
    }
  }

  lemma CompletePreservesInv(s: TodoState, k: nat, now: Clock)
    requires Inv(s) && k < |s.todos|
    ensures Inv(AfterComplete(s, k, now))
  {
    var s' := AfterComplete(s, k, now);
    forall x | x in s'.notified
      ensures x in Ids(s'.todos)
    {
      var u :| u in s.todos && u.id == x;
      var j :| 0 <= j < |s.todos| && s.todos[j] == u;
      assert j != k;
      assert s'.todos[j] in s'.todos;
    }
  }

  lemma AddPreservesInv(s: TodoState, t: TodoItem)
    requires Inv(s) && ScheduleParses(t)
    ensures Inv(AfterAdd(s, t))
  {
    var s' := AfterAdd(s, t);
    forall x | x in s.notified
      ensures x in Ids(s'.todos)
    {
      var u :| u in s.todos && u.id == x;
      assert u in s'.todos;
    }
  }

  lemma RemovePreservesInv(s: TodoState, id: string)
    requires Inv(s)
    ensures Inv(AfterRemove(s, id))
  {
    var s' := AfterRemove(s, id);
    forall x | x in s'.notified
      ensures x in Ids(s'.todos)
    {
      var u :| u in s.todos && u.id == x;
      assert u in s'.todos;
    }
    forall i | 0 <= i < |s'.todos|
      ensures ScheduleParses(s'.todos[i])
    {
      assert s'.todos[i] in s.todos;
    }
  }

  /** Every input keeps the invariant. */
  lemma StepPreservesInv(s: TodoState, i: Input)
    requires Inv(s) && Delivered(s, i)
    ensures Inv(Step(s, i))
  {
    match i
    case UserStart(now) =>
      CheckPreservesInv(s, now);
    case UserStop =>
    case UserSetTodos(todos, now) =>
      CheckPreservesInv(s.(todos := todos, notified := {}), now);
    case UserAdd(t) =>
      AddPreservesInv(s, t);
    case UserRemove(id) =>
      RemovePreservesInv(s, id);
    case UserUpdate(t) =>
      UpdatePreservesInv(s, t);
    case UserRequest(id, picks, now) =>
      RequestPreservesInv(s, id, picks, now);
    case UserVerify(id, entered, now) =>
      VerifyPreservesInv(s, id, entered, now);
    case CheckTimeout(now) =>
      CheckPreservesInv(s, now);
    case MidnightTimeout(now) =>
      MidnightPreservesInv(s, now);
  }

  lemma UpdatePreservesInv(s: TodoState, t: TodoItem)
    requires Inv(s) && ScheduleParses(t)
    ensures Inv(AfterUpdate(s, t))
  {
    var k := FindIndex(s.todos, t.id);
    if k < |s.todos| {
      ReplaceFirstRule(s.todos, t, k);
    }
  }

  lemma RequestPreservesInv(s: TodoState, id: string, picks: seq<int>, now: Clock)
    requires Inv(s) && ValidPicks(picks)
    ensures Inv(AfterRequest(s, id, picks, now).0)
  {
    var k := FindIndex(s.todos, id);
    if k < |s.todos| && !s.todos[k].isRecurring {
      CompletePreservesInv(s, k, now);
    }
  }

  lemma VerifyPreservesInv(s: TodoState, id: string, entered: string, now: Clock)
    requires Inv(s)
    ensures Inv(AfterVerify(s, id, entered, now).0)
  {
    if id in s.pending && CodesMatch(entered, s.pending[id]) {
      var k := FindIndex(s.todos, id);
      if k < |s.todos| {
        CompletePreservesInv(s, k, now);
      }
    }
  }

  lemma MidnightPreservesInv(s: TodoState, now: Clock)
    requires Inv(s) && now.Valid()
    ensures Inv(AfterMidnight(s, now))
  {
    MidnightRule(s.todos, now.day);
  }

  /** Loading a list forgets every earlier announcement: with distinct ids, only the items due now are marked. */
  lemma SetTodosRule(s: TodoState, todos: seq<TodoItem>, now: Clock)
    requires AllParse(todos) && UniqueIds(todos)
    ensures var s' := AfterSetTodos(s, todos, now);
      && |s'.todos| == |todos|
      && (forall i :: 0 <= i < |todos| ==> s'.todos[i] == Refresh(todos[i], now.day))
      && AllParse(s'.todos)
      && s'.notified == Ids(DueTodos(s'.todos, now))
      && s'.pending == s.pending
  {
    CheckFromNothing(todos, now);
  }

  // ---------------------------------------------------------------------------
  // The manager
  // ---------------------------------------------------------------------------

  class TodoManager {
    var todos: seq<TodoItem>
    var notified: set<string>
    var pendingVerification: map<string, string>
    var checkTimerActive: bool
    var midnightTimer: Alarm

    /** The signals emitted so far. */
    ghost var events: seq<Event>

    ghost function Snapshot(): TodoState
      reads this
    {
      TodoState(todos, notified, pendingVerification, checkTimerActive, midnightTimer, events)
    }

    ghost predicate Valid()
      reads this
    {
      Inv(Snapshot())
    }

    constructor ()
      ensures Valid() && Snapshot() == Initial
    {
      todos, notified, pendingVerification := [], {}, map[];
      checkTimerActive, midnightTimer := false, Off;
      events := [];
    }

    /** `start`: check now, then keep checking every minute and arm the midnight reset. */
    method Start(now: Clock)
      requires Valid() && now.Valid()
      modifies this
      ensures Valid() && Snapshot() == AfterStart(old(Snapshot()), now)
    {
      CheckTodos(now);
      checkTimerActive := true;
      ScheduleMidnightReset(now);
    }

    method Stop()
      requires Valid()
      modifies this
      ensures Valid() && Snapshot() == AfterStop(old(Snapshot()))
    {
      checkTimerActive := false;
      midnightTimer := Off;
    }

    /** `set_todos`: take the loaded list, forget the announcements and check. */
    method SetTodos(newTodos: seq<TodoItem>, now: Clock)
      requires Valid() && AllParse(newTodos)
      modifies this
      ensures Valid() && Snapshot() == AfterSetTodos(old(Snapshot()), newTodos, now)
    {
      todos := newTodos;
      notified := {};
      CheckTodos(now);
    }

    /** `get_todos`: a copy of the list. */
    function GetTodos(): seq<TodoItem>
      reads this
    {
      todos
    }

    /** `get_pending_todos`. */
    function GetPendingTodos(now: Clock): (r: seq<TodoItem>)
      reads this
      requires Valid()
      ensures forall t :: t in r <==> t in todos && IsDue(t, now)
    {
      DueTodos(todos, now)
    }

    /** `get_recurring_todos`. */
    function GetRecurringTodos(): (r: seq<TodoItem>)
      reads this
      ensures forall t :: t in r <==> t in todos && t.isRecurring
    {
      RecurringTodos(todos)
    }

    method AddTodo(t: TodoItem)
      requires Valid() && ScheduleParses(t)
      modifies this
      ensures Valid() && Snapshot() == AfterAdd(old(Snapshot()), t)
    {
      AddPreservesInv(Snapshot(), t);
      todos := todos + [t];
      events := events + [TodosChanged];
    }

    method RemoveTodo(id: string)
      requires Valid()
      modifies this
      ensures Valid() && Snapshot() == AfterRemove(old(Snapshot()), id)
    {
      RemovePreservesInv(Snapshot(), id);
      todos := WithoutId(todos, id);
      if id in pendingVerification {
        pendingVerification := pendingVerification - {id};
      }
      notified := notified - {id};
      events := events + [TodosChanged];
    }

    /** `update_todo`: overwrite the first item with the same id. */
    method UpdateTodo(t: TodoItem)
      requires Valid() && ScheduleParses(t)
      modifies this
      ensures Valid() && Snapshot() == AfterUpdate(old(Snapshot()), t)
    {
      UpdatePreservesInv(Snapshot(), t);
      var i := 0;
      while i < |todos|
        invariant 0 <= i <= |todos| && todos == old(todos)
        invariant forall j :: 0 <= j < i ==> todos[j].id != t.id
      {
        if todos[i].id == t.id {
          todos := todos[i := t];
          break;
        }
        i := i + 1;
      }
      events := events + [TodosChanged];
    }

    /** `_get_todo_by_id`: the position of the first item with the id, |todos| when there is none. */
    method FindTodo(id: string) returns (k: nat)
      ensures k == FindIndex(todos, id)
    {
      k := 0;
      while k < |todos|
        invariant k <= |todos|
        invariant forall j :: 0 <= j < k ==> todos[j].id != id
      {
        if todos[k].id == id {
          FindIndexFirst(todos, id, k);
          return;
        }
        k := k + 1;
      }
    }

    /** `_complete_todo` on the item at position k. */
    method CompleteTodo(k: nat, now: Clock)
      requires Valid() && k < |todos|
      modifies this
      ensures Valid() && Snapshot() == AfterComplete(old(Snapshot()), k, now)
    {
      CompletePreservesInv(Snapshot(), k, now);
      var t := MarkCompleted(todos[k], now.Timestamp());
      todos := todos[k := t];
      notified := notified - {t.id};
      events := events + [TodoCompleted(t), TodosChanged];
    }

    method RequestCompletion(id: string, picks: seq<int>, now: Clock) returns (r: Option<string>)
      requires Valid() && ValidPicks(picks)
      modifies this
      ensures Valid() && (Snapshot(), r) == AfterRequest(old(Snapshot()), id, picks, now)
    {
      RequestPreservesInv(Snapshot(), id, picks, now);
      var k := FindTodo(id);
      if k == |todos| {
        return None;
      }
      if todos[k].isRecurring {
        var code := GenerateCode(picks);
        pendingVerification := pendingVerification[id := code];
        events := events + [VerificationRequired(todos[k], code)];
        return Some(code);
      } else {
        CompleteTodo(k, now);
        return None;
      }
    }

    method VerifyAndComplete(id: string, entered: string, now: Clock) returns (ok: bool)
      requires Valid()
      modifies this
      ensures Valid() && (Snapshot(), ok) == AfterVerify(old(Snapshot()), id, entered, now)
    {
      if id !in pendingVerification {
        return false;
      }
      var expected := pendingVerification[id];
      if Upper(entered) == Upper(expected) {
        var k := FindTodo(id);
        if k < |todos| {
          ghost var s0 := Snapshot();
          VerifyPreservesInv(s0, id, entered, now);
          CompleteTodo(k, now);
          pendingVerification := pendingVerification - {id};
          return true;
        }
      }
      return false;
    }

    /** `_check_todos`: one pass over the items, resetting and announcing them. */
    method CheckTodos(now: Clock)
      requires Valid()
      modifies this
      ensures Valid() && Snapshot() == AfterCheck(old(Snapshot()), now)
    {
      CheckPreservesInv(Snapshot(), now);
      var items, marked, emitted := CheckPass(todos, notified, now);
      todos, notified := items, marked;
      events := events + emitted;
    }

    /** `_schedule_midnight_reset`: arm the single-shot timer for 00:00:01 tomorrow. */
    method ScheduleMidnightReset(now: Clock)
      requires Valid() && now.Valid()
      modifies this
      ensures Valid() && Snapshot() == AfterScheduleMidnight(old(Snapshot()), now)
    {
      midnightTimer := Armed(MsUntilMidnight(now));
    }

    /** `_check_midnight_reset`, run when the midnight timer fires. */
    method CheckMidnightReset(now: Clock)
      requires Valid() && now.Valid() && midnightTimer.Armed?
      modifies this
      ensures Valid() && Snapshot() == AfterMidnight(old(Snapshot()), now)
    {
      MidnightPreservesInv(Snapshot(), now);
      notified := {};
      ghost var t0 := todos;
      for i := 0 to |todos|
        invariant |todos| == |t0| && notified == {} && events == old(events)
        invariant pendingVerification == old(pendingVerification)
        invariant checkTimerActive == old(checkTimerActive) && midnightTimer == old(midnightTimer)
        invariant forall j :: 0 <= j < i ==> todos[j] == ResetIfRecurring(t0[j], now.day)
        invariant forall j :: i <= j < |todos| ==> todos[j] == t0[j]
      {
        if todos[i].isRecurring {
          todos := todos[i := ResetForNewDay(todos[i], now.day)];
        }
      }
      assert todos == MidnightReset(t0, now.day);
      events := events + [TodosChanged];
      ScheduleMidnightReset(now);
    }
  }

  /** `_check_todos`'s loop body for one item: reset it if needed, then announce it if due. */
  method CheckOne(t: TodoItem, marked: set<string>, now: Clock)
      returns (t': TodoItem, marked': set<string>, ghost emitted: seq<Event>)
    requires ScheduleParses(t)
    ensures Checked([t'], marked', emitted) == CheckItem(t, marked, now)
  {
    t', marked', emitted := t, marked, [];
    if NeedsReset(t', now.day) {
      t' := ResetForNewDay(t', now.day);
      marked' := marked' - {t'.id};
      emitted := emitted + [TodosChanged];
    }
    if IsDue(t', now) && t'.id !in marked' {
      marked' := marked' + {t'.id};
      emitted := emitted + [TodoDue(t')];
    }
  }

  /** `_check_todos`'s loop, over the list and the notified set it is given. */
  method CheckPass(todos: seq<TodoItem>, notified: set<string>, now: Clock)
      returns (items: seq<TodoItem>, marked: set<string>, ghost emitted: seq<Event>)
    requires AllParse(todos)
    ensures Checked(items, marked, emitted) == CheckAll(todos, notified, now)
  {
    items, marked, emitted := todos, notified, [];
    ghost var r := CheckAll([], notified, now);
    var i := 0;
    while i < |items|
      invariant 0 <= i <= |items| == |todos|
      invariant AllParse(todos[..i]) && r == CheckAll(todos[..i], notified, now)
      invariant items == r.todos + todos[i..] && marked == r.notified && emitted == r.events
    {
      CheckAllSnoc(todos, notified, now, i);
      assert items[i] == todos[i];
      ghost var e;
      var t;
      t, marked, e := CheckOne(items[i], marked, now);
      Splice(r.todos, todos[i..], t);
      assert todos[i..][1..] == todos[i + 1..];
      items := items[i := t];
      emitted := emitted + e;
      r := CheckAll(todos[..i + 1], notified, now);
      assert r.todos == items[..i + 1];
      i := i + 1;
    }
    assert todos[..i] == todos;
  }

  /** Writing x at the first position past p in p + q. */
  lemma Splice<X>(p: seq<X>, q: seq<X>, x: X)
    requires |q| > 0
    ensures (p + q)[|p| := x] == p + [x] + q[1..]
    ensures q[0] == x ==> p + q == p + [x] + q[1..]
  {
    assert q == [q[0]] + q[1..];
  }

  /** The check of one item more: the check of the items before it, then that item's pass. */
  lemma CheckAllSnoc(todos: seq<TodoItem>, notified: set<string>, now: Clock, i: nat)
    requires AllParse(todos) && i < |todos|
    ensures AllParse(todos[..i]) && AllParse(todos[..i + 1])
    ensures var r := CheckAll(todos[..i], notified, now);
      var c := CheckItem(todos[i], r.notified, now);
      CheckAll(todos[..i + 1], notified, now) == Checked(r.todos + c.todos, c.notified, r.events + c.events)
  {
    assert todos[..i + 1][..i] == todos[..i];
  }

  lemma FindIndexFirst(todos: seq<TodoItem>, id: string, k: nat)
    requires k < |todos| && todos[k].id == id && forall j :: 0 <= j < k ==> todos[j].id != id
    ensures FindIndex(todos, id) == k
  {
  }
}
