/** Stored events, and the conditions the queries over them are built from. */
module Events {
  import opened Wrappers
  import opened Texts

  /** An address, by its canonical text: host() prints it, and equal addresses print the same. */
  datatype Addr = Addr(text: string)

  /** texts are the strings and numbers within raw. Times are in nanoseconds since Go's zero time. */
  datatype Event = Event(
    id: int, ts: int, tenant: string, source: string, eventType: Option<string>, severity: Option<int>,
    action: Option<string>, srcIP: Option<Addr>, dstIP: Option<Addr>, user: Option<string>, host: Option<string>,
    tags: seq<string>, texts: seq<string>)

  /** The fields events may be counted by. */
  datatype Field = SrcIPField | DstIPField | UserField | HostField | EventTypeField

  datatype Cond =
    | From(t: int)
    | Before(t: int)
    | TenantIs(text: string)
    | SourceIs(text: string)
    | SourceIn(texts: seq<string>)
    | EventTypeIs(text: string)
    | ActionIs(text: string)
    | SeverityAtLeast(n: int)
    | SeverityAtMost(n: int)
    | SrcIPIs(addr: Addr)
    | UserIs(text: string)
    | HostIs(text: string)
    | HasTags(texts: seq<string>)
    | Mentions(text: string)
    | IsNotNull(field: Field)
  {
    /** Whether e is a row the condition is true of. A comparison with NULL never is. */
    predicate Holds(e: Event) {
      match this
      case From(t) => t <= e.ts
      case Before(t) => e.ts < t
      case TenantIs(s) => e.tenant == s
      case SourceIs(s) => e.source == s
      case SourceIn(ss) => e.source in ss
      case EventTypeIs(s) => e.eventType == Some(s)
      case ActionIs(s) => e.action == Some(s)
      case SeverityAtLeast(n) => e.severity.Some? && n <= e.severity.value
      case SeverityAtMost(n) => e.severity.Some? && e.severity.value <= n
      case SrcIPIs(a) => e.srcIP == Some(a)
      case UserIs(s) => e.user == Some(s)
      case HostIs(s) => e.host == Some(s)
      case HasTags(ts) => HasAll(e.tags, ts)
      case Mentions(q) => MentionedIn(e.texts, q)
      case IsNotNull(f) => FieldText(f, e).Some?
    }
  }

  predicate AllHold(conds: seq<Cond>, e: Event) {
    forall i :: 0 <= i < |conds| ==> conds[i].Holds(e)
  }

  /** Appends a condition, if there is one: it narrows what the others select. */
  function With(conds: seq<Cond>, c: Option<Cond>): (more: seq<Cond>)
    ensures forall e :: AllHold(more, e) <==> AllHold(conds, e) && (c.Some? ==> c.value.Holds(e))
  {
    if c.None? then conds
    else
      assert forall i :: 0 <= i < |conds| ==> (conds + [c.value])[i] == conds[i];
      assert (conds + [c.value])[|conds|] == c.value;
      conds + [c.value]
  }

  lemma BothHold(a: Cond, b: Cond, e: Event)
    ensures AllHold([a, b], e) <==> a.Holds(e) && b.Holds(e)
  {
    assert [a, b][0] == a && [a, b][1] == b;
  }

  lemma JoinedHold(first: seq<Cond>, more: seq<Cond>, e: Event)
    ensures AllHold(first + more, e) <==> AllHold(first, e) && AllHold(more, e)
  {
    assert forall i :: 0 <= i < |first| ==> (first + more)[i] == first[i];
    assert forall i :: 0 <= i < |more| ==> (first + more)[|first| + i] == more[i];
  }

  /** tags @> wanted. */
  predicate HasAll(tags: seq<string>, wanted: seq<string>) {
    forall t :: t in wanted ==> t in tags
  }

  /** Some text contains q, ignoring case. */
  predicate MentionedIn(texts: seq<string>, q: string) {
    texts != [] && (Contains(ToLower(texts[0]), ToLower(q)) || MentionedIn(texts[1..], q))
  }

  predicate Contains(s: string, part: string) {
    part <= s || (s != [] && Contains(s[1..], part))
  }

  /** The text a value of the field is reported as. */
  function FieldText(field: Field, e: Event): Option<string> {
    match field
    case SrcIPField => if e.srcIP.Some? then Some(e.srcIP.value.text) else None
    case DstIPField => if e.dstIP.Some? then Some(e.dstIP.value.text) else None
    case UserField => e.user
    case HostField => e.host
    case EventTypeField => e.eventType
  }
}
