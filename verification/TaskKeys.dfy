/** The cache keys of the task service, and what two queries under one key have in common. */
module TaskKeys {
  import opened Common
  import CacheStore

  // ------------------------------------------------------------ colon-joined fields

  function Join(parts: seq<string>): string
    requires parts != []
  {
    if |parts| == 1 then parts[0] else parts[0] + ":" + Join(parts[1..])
  }

  predicate ColonFree(s: string) { ':' !in s }

  predicate AllColonFree(parts: seq<string>) {
    forall p <- parts :: ColonFree(p)
  }

  function Colons(s: string): nat {
    if s == "" then 0 else (if s[0] == ':' then 1 else 0) + Colons(s[1..])
  }

  function TotalColons(parts: seq<string>): nat {
    if parts == [] then 0 else Colons(parts[0]) + TotalColons(parts[1..])
  }

  lemma {:induction false} ColonsConcat(a: string, b: string)
    ensures Colons(a + b) == Colons(a) + Colons(b)
    decreases a
  {
    if a == "" {
      assert a + b == b;
    } else {
      ColonsConcat(a[1..], b);
      assert (a + b)[1..] == a[1..] + b;
    }
  }

  lemma {:induction false} ColonFreeIffNone(s: string)
    ensures ColonFree(s) <==> Colons(s) == 0
    decreases s
  {
    if s != "" {
      ColonFreeIffNone(s[1..]);
      assert s == [s[0]] + s[1..];
    }
  }

  lemma {:induction false} TotalColonsZero(parts: seq<string>)
    ensures AllColonFree(parts) <==> TotalColons(parts) == 0
    decreases parts
  {
    if parts != [] {
      ColonFreeIffNone(parts[0]);
      TotalColonsZero(parts[1..]);
      assert parts == [parts[0]] + parts[1..];
    }
  }

  lemma {:induction false} JoinColons(parts: seq<string>)
    requires parts != []
    ensures Colons(Join(parts)) == TotalColons(parts) + |parts| - 1
    decreases parts
  {
    if |parts| > 1 {
      JoinColons(parts[1..]);
      ColonsConcat(parts[0] + ":", Join(parts[1..]));
      ColonsConcat(parts[0], ":");
      assert Colons(":") == 1;
    } else {
      assert parts[1..] == [];
    }
  }

  /** The first colon ends the first field. */
  lemma Split(a: string, x: string, a': string, x': string)
    requires ColonFree(a) && ColonFree(a')
    requires a + ":" + x == a' + ":" + x'
    ensures a == a' && x == x'
  {
    var s, s' := a + ":" + x, a' + ":" + x';
    assert s[|a|] == ':' && s'[|a'|] == ':';
    assert a == s[..|a|] && a' == s'[..|a'|];
    assert forall i :: 0 <= i < |a| ==> a[i] != s'[|a'|];
    assert forall i :: 0 <= i < |a'| ==> a'[i] != s[|a|];
    assert |a| == |a'|;
    assert x == s[|a| + 1..] && x' == s'[|a'| + 1..];
  }

  lemma {:induction false} SplitAll(parts: seq<string>, parts': seq<string>)
    requires parts != [] && |parts| == |parts'| && AllColonFree(parts) && AllColonFree(parts')
    requires Join(parts) == Join(parts')
    ensures parts == parts'
    decreases parts
  {
    assert parts[0] in parts && parts'[0] in parts';
    if |parts| > 1 {
      Split(parts[0], Join(parts[1..]), parts'[0], Join(parts'[1..]));
      SplitAll(parts[1..], parts'[1..]);
      assert parts == [parts[0]] + parts[1..] && parts' == [parts'[0]] + parts'[1..];
    }
  }

  /** Colon-free fields survive joining, even against fields about which nothing is known. */
  lemma JoinInjective(parts: seq<string>, parts': seq<string>)
    requires parts != [] && |parts| == |parts'| && AllColonFree(parts)
    requires Join(parts) == Join(parts')
    ensures parts == parts'
  {
    JoinColons(parts);
    JoinColons(parts');
    TotalColonsZero(parts);
    TotalColonsZero(parts');
    SplitAll(parts, parts');
  }

  lemma {:induction false} JoinConcat(a: seq<string>, b: seq<string>)
    requires a != [] && b != []
    ensures Join(a + b) == Join(a) + ":" + Join(b)
    decreases a
  {
    assert (a + b)[1..] == a[1..] + b;
    if |a| > 1 {
      JoinConcat(a[1..], b);
    } else {
      assert a[1..] + b == b;
    }
  }

  /** A joined head followed by anything determines the head. */
  lemma {:induction false} HeadDetermined(head: seq<string>, rest: string, head': seq<string>, rest': string)
    requires head != [] && |head| == |head'| && AllColonFree(head) && AllColonFree(head')
    requires Join(head) + ":" + rest == Join(head') + ":" + rest'
    ensures head == head'
    decreases head
  {
    assert head[0] in head && head'[0] in head';
    if |head| == 1 {
      Split(head[0], rest, head'[0], rest');
    } else {
      var tail, tail' := Join(head[1..]) + ":" + rest, Join(head'[1..]) + ":" + rest';
      assert Join(head) + ":" + rest == head[0] + ":" + tail;
      assert Join(head') + ":" + rest' == head'[0] + ":" + tail';
      Split(head[0], tail, head'[0], tail');
      HeadDetermined(head[1..], rest, head'[1..], rest');
      assert head == [head[0]] + head[1..] && head' == [head'[0]] + head'[1..];
    }
  }

  // ------------------------------------------------------------ fields between labels

  /** What lies between the colons. */
  function Segments(s: string): (r: seq<string>)
    ensures r != []
  {
    if s == "" then [""]
    else if s[0] == ':' then [""] + Segments(s[1..])
    else
      var rest := Segments(s[1..]);
      [[s[0]] + rest[0]] + rest[1..]
  }

  lemma {:induction false} JoinSegments(s: string)
    ensures Join(Segments(s)) == s
    decreases s
  {
    if s != "" {
      JoinSegments(s[1..]);
      var rest := Segments(s[1..]);
      if s[0] == ':' {
        assert ([""] + rest)[1..] == rest;
      } else {
        assert Segments(s)[1..] == rest[1..];
      }
    }
  }

  lemma Regroup(c: char, x: seq<string>, y: seq<string>)
    requires x != []
    ensures [[c] + (x + y)[0]] + (x + y)[1..] == [[c] + x[0]] + x[1..] + y
    ensures [""] + (x + y) == [""] + x + y
  {
  }

  /** Segments before a colon and segments after it. */
  lemma {:induction false} SegmentsConcat(a: string, b: string, rest: string)
    requires rest != "" && rest[0] == ':' && rest[1..] == b
    ensures Segments(a + rest) == Segments(a) + Segments(b)
    decreases a
  {
    if a == "" {
      assert a + rest == rest;
    } else {
      var s := a + rest;
      SegmentsConcat(a[1..], b, rest);
      Regroup(a[0], Segments(a[1..]), Segments(b));
      assert s[0] == a[0] && s[1..] == a[1..] + rest;
    }
  }

  lemma {:induction false} ColonFreeSegment(s: string)
    requires ColonFree(s)
    ensures Segments(s) == [s]
    decreases s
  {
    if s != "" {
      ColonFreeSegment(s[1..]);
      assert s == [s[0]] + s[1..];
    }
  }

  /** Fields with a label between each two: `f0:l0:f1:l1:...:fn`. */
  function Woven(fields: seq<string>, labels: seq<string>): string
    requires |fields| == |labels| + 1
    decreases labels
  {
    if labels == [] then fields[0]
    else fields[0] + ":" + (labels[0] + ":" + Woven(fields[1..], labels[1..]))
  }

  /** No field contains a label between two of its colons or its ends. */
  predicate Unlabelled(fields: seq<string>, labels: seq<string>) {
    forall f <- fields, l <- labels :: l !in Segments(f)
  }

  predicate Distinct(labels: seq<string>) {
    forall i, j :: 0 <= i < j < |labels| ==> labels[i] != labels[j]
  }

  lemma WovenSegments(fields: seq<string>, labels: seq<string>)
    requires |fields| == |labels| + 1 && labels != [] && AllColonFree(labels)
    ensures Segments(Woven(fields, labels))
         == Segments(fields[0]) + ([labels[0]] + Segments(Woven(fields[1..], labels[1..])))
  {
    var inner := Woven(fields[1..], labels[1..]);
    var outer := labels[0] + ":" + inner;
    assert labels[0] in labels;
    assert labels[0] + (":" + inner) == outer && fields[0] + (":" + outer) == Woven(fields, labels);
    SegmentsConcat(fields[0], outer, ":" + outer);
    SegmentsConcat(labels[0], inner, ":" + inner);
    ColonFreeSegment(labels[0]);
  }

  lemma {:induction false} NotInWoven(fields: seq<string>, labels: seq<string>, x: string)
    requires |fields| == |labels| + 1 && AllColonFree(labels)
    requires x !in labels && forall f <- fields :: x !in Segments(f)
    ensures x !in Segments(Woven(fields, labels))
    decreases labels
  {
    assert fields[0] in fields;
    if labels != [] {
      assert forall l <- labels[1..] :: l in labels;
      assert forall f <- fields[1..] :: f in fields;
      WovenSegments(fields, labels);
      NotInWoven(fields[1..], labels[1..], x);
    }
  }

  /** An element that occurs once marks the place where a sequence is cut. */
  lemma CutUnique<T>(a: seq<T>, x: T, b: seq<T>, a': seq<T>, b': seq<T>)
    requires a + ([x] + b) == a' + ([x] + b') && x !in a && x !in b
    ensures a == a' && b == b'
  {
    var s, s' := a + ([x] + b), a' + ([x] + b');
    assert s'[|a'|] == x;
    assert forall i :: 0 <= i < |s| && s[i] == x ==> i == |a|;
    assert a == s[..|a|] && a' == s'[..|a'|];
    assert b == s[|a| + 1..] && b' == s'[|a'| + 1..];
  }

  /** Fields that contain no label are recoverable, whatever the other fields contain. */
  lemma {:induction false} WovenInjective(fields: seq<string>, fields': seq<string>, labels: seq<string>)
    requires |fields| == |fields'| == |labels| + 1 && AllColonFree(labels) && Distinct(labels)
    requires Unlabelled(fields, labels)
    requires Woven(fields, labels) == Woven(fields', labels)
    ensures fields == fields'
    decreases labels
  {
    if labels != [] {
      var x := labels[0];
      var rest, rest' := Woven(fields[1..], labels[1..]), Woven(fields'[1..], labels[1..]);
      assert x in labels && fields[0] in fields;
      assert forall f <- fields[1..] :: f in fields;
      assert forall l <- labels[1..] :: l in labels;
      WovenSegments(fields, labels);
      WovenSegments(fields', labels);
      NotInWoven(fields[1..], labels[1..], x);
      CutUnique(Segments(fields[0]), x, Segments(rest), Segments(fields'[0]), Segments(rest'));
      JoinSegments(fields[0]);
      JoinSegments(fields'[0]);
      JoinSegments(rest);
      JoinSegments(rest');
      WovenInjective(fields[1..], fields'[1..], labels[1..]);
      assert fields == [fields[0]] + fields[1..] && fields' == [fields'[0]] + fields'[1..];
    }
  }

  // ------------------------------------------------------------ queries

  datatype SortOrder = ASC | DESC
  datatype SortField = CreatedAt | DueDate | Title

  /** The query parameters; absent ones are `None`. */
  datatype Query = Query(
    page: Option<nat>, limit: Option<nat>,
    status: Option<string>, priority: Option<string>, assignedTo: Option<string>, search: Option<string>,
    sortBy: Option<string>, sortOrder: Option<SortOrder>)

  /** What the query asks of the database once defaults are filled in. */
  datatype Meaning = Meaning(
    page: nat, limit: nat,
    status: Option<string>, priority: Option<string>, assignedTo: Option<string>, search: Option<string>,
    sortField: SortField, sortOrder: SortOrder)

  /** An absent or empty string filters nothing. */
  function Truthy(s: Option<string>): Option<string> {
    if s == Some("") then None else s
  }

  function OrDefault(n: Option<nat>, default: nat): nat {
    if n.None? || n.value == 0 then default else n.value
  }

  function MeaningOf(q: Query): (m: Meaning)
    ensures m.page >= 1 && m.limit >= 1
  {
    Meaning(
      OrDefault(q.page, 1), OrDefault(q.limit, 10),
      Truthy(q.status), Truthy(q.priority), Truthy(q.assignedTo), Truthy(q.search),
      (match q.sortBy
       case Some("dueDate") => DueDate
       case Some("title") => Title
       case _ => CreatedAt),
      if q.sortOrder.Some? then q.sortOrder.value else DESC)
  }

  function Decimal(n: nat): (s: string)
    ensures s != "" && forall c <- s :: '0' <= c <= '9'
  {
    var digit := ['0' + (n % 10) as char];
    if n < 10 then digit else Decimal(n / 10) + digit
  }

  lemma {:induction false} DecimalInjective(a: nat, b: nat)
    requires Decimal(a) == Decimal(b)
    ensures a == b
  {
    var s, t := Decimal(a), Decimal(b);
    assert s[|s| - 1] == '0' + (a % 10) as char && t[|t| - 1] == '0' + (b % 10) as char;
    if a >= 10 && b >= 10 {
      assert Decimal(a / 10) == s[..|s| - 1] && Decimal(b / 10) == t[..|t| - 1];
      DecimalInjective(a / 10, b / 10);
    }
  }

  function NumberField(n: Option<nat>): string {
    if n.None? then "undefined" else Decimal(n.value)
  }

  lemma NumberFieldInjective(a: Option<nat>, b: Option<nat>)
    ensures ColonFree(NumberField(a))
    ensures NumberField(a) == NumberField(b) ==> a == b
  {
    assert "undefined"[0] == 'u';
    assert a.Some? ==> Decimal(a.value)[0] in Decimal(a.value);
    assert b.Some? ==> Decimal(b.value)[0] in Decimal(b.value);
    if a.Some? && b.Some? && NumberField(a) == NumberField(b) {
      DecimalInjective(a.value, b.value);
    }
  }

  function FilterField(f: Option<string>, sentinel: string): string {
    if Truthy(f).Some? then f.value else sentinel
  }

  function PlainField(f: Option<string>): string {
    if f.Some? then f.value else "undefined"
  }

  function OrderField(o: Option<SortOrder>): string {
    match o
    case None => "undefined"
    case Some(ASC) => "ASC"
    case Some(DESC) => "DESC"
  }

  function Head(workspaceId: string, projectId: string): seq<string> {
    ["workspace", workspaceId, "project", projectId, "tasks"]
  }

  function Fields(q: Query): seq<string> {
    ["page", NumberField(q.page), "limit", NumberField(q.limit),
     "status", FilterField(q.status, "all"), "priority", FilterField(q.priority, "all"),
     "assignee", FilterField(q.assignedTo, "all"), "search", FilterField(q.search, "none"),
     "sortBy", PlainField(q.sortBy), "sortOrder", OrderField(q.sortOrder)]
  }

  function TaskKey(id: string): string { "task:id:" + id }

  function ListKey(workspaceId: string, projectId: string, q: Query): string {
    Join(Head(workspaceId, projectId) + Fields(q))
  }

  function ListPrefix(workspaceId: string, projectId: string): string {
    Join(Head(workspaceId, projectId)) + ":"
  }

  function ListPattern(workspaceId: string, projectId: string): string {
    ListPrefix(workspaceId, projectId) + "*"
  }

  // ------------------------------------------------------------ keys against meanings

  predicate CleanId(id: string) {
    ColonFree(id) && CacheStore.GlobFree(id)
  }

  /** No text field of the query contains a colon. */
  predicate ColonFreeQuery(q: Query) {
    && ColonFree(FilterField(q.status, "all")) && ColonFree(FilterField(q.priority, "all"))
    && ColonFree(FilterField(q.assignedTo, "all")) && ColonFree(FilterField(q.search, "none"))
    && ColonFree(PlainField(q.sortBy))
  }

  /** No filter spells out the word that stands for its absence. */
  predicate SentinelFree(q: Query) {
    q.status != Some("all") && q.priority != Some("all") && q.assignedTo != Some("all") && q.search != Some("none")
  }

  const LABELS := ["priority", "assignee", "search", "sortBy", "sortOrder"]

  /** The fields from the status on, which the labels separate. */
  function Texts(q: Query): seq<string> {
    [FilterField(q.status, "all"), FilterField(q.priority, "all"), FilterField(q.assignedTo, "all"),
     FilterField(q.search, "none"), PlainField(q.sortBy), OrderField(q.sortOrder)]
  }

  /** Whatever its text fields contain, no piece of them between colons is a label. */
  predicate LabelFree(q: Query) {
    Unlabelled(Texts(q), LABELS)
  }

  predicate Sane(q: Query) { (ColonFreeQuery(q) || LabelFree(q)) && SentinelFree(q) }

  /** Both queries restrict the same columns. */
  predicate SameFilters(q: Query, q': Query) {
    && Truthy(q.status).Some? == Truthy(q'.status).Some?
    && Truthy(q.priority).Some? == Truthy(q'.priority).Some?
    && Truthy(q.assignedTo).Some? == Truthy(q'.assignedTo).Some?
    && Truthy(q.search).Some? == Truthy(q'.search).Some?
  }

  lemma FieldsDetermine(q: Query, q': Query)
    requires Fields(q) == Fields(q')
    ensures q.page == q'.page && q.limit == q'.limit && q.sortOrder == q'.sortOrder
    ensures MeaningOf(q) == MeaningOf(q') <==> SameFilters(q, q')
  {
    NumberFieldInjective(q.page, q'.page);
    NumberFieldInjective(q.limit, q'.limit);
    var f, f' := Fields(q), Fields(q');
    assert f[1] == f'[1] && f[3] == f'[3] && f[5] == f'[5] && f[7] == f'[7];
    assert f[9] == f'[9] && f[11] == f'[11] && f[13] == f'[13] && f[15] == f'[15];
    assert "undefined"[0] == 'u' && "ASC"[0] == 'A' && "DESC"[0] == 'D';
  }

  lemma PairsColonFree(names: seq<string>, values: seq<string>)
    requires |names| == |values| == 7 && AllColonFree(names) && AllColonFree(values)
    ensures AllColonFree([names[0], values[0], names[1], values[1], names[2], values[2], names[3], values[3],
                          names[4], values[4], names[5], values[5], names[6], values[6]])
  {
  }

  const FIELD_NAMES := ["page", "limit", "status", "priority", "assignee", "search", "sortBy"]

  lemma NamesColonFree()
    ensures ColonFree("page") && ColonFree("limit") && ColonFree("status") && ColonFree("priority")
    ensures ColonFree("assignee") && ColonFree("search") && ColonFree("sortBy") && ColonFree("sortOrder")
    ensures ColonFree("workspace") && ColonFree("project") && ColonFree("tasks")
    ensures ColonFree("undefined") && ColonFree("ASC") && ColonFree("DESC")
  {
  }

  lemma HeadColonFree(w: string, p: string, a: string, b: string, c: string)
    requires ColonFree(w) && ColonFree(p) && ColonFree(a) && ColonFree(b) && ColonFree(c)
    ensures AllColonFree([a, w, b, p, c])
  {
  }

  lemma FieldsColonFree(workspaceId: string, projectId: string, q: Query)
    requires CleanId(workspaceId) && CleanId(projectId)
    ensures AllColonFree(Head(workspaceId, projectId))
    ensures ColonFreeQuery(q) ==> AllColonFree(Head(workspaceId, projectId) + Fields(q))
  {
    NamesColonFree();
    NumberFieldInjective(q.page, q.page);
    NumberFieldInjective(q.limit, q.limit);
    HeadColonFree(workspaceId, projectId, "workspace", "project", "tasks");
    if ColonFreeQuery(q) {
      var values := [NumberField(q.page), NumberField(q.limit), FilterField(q.status, "all"),
        FilterField(q.priority, "all"), FilterField(q.assignedTo, "all"), FilterField(q.search, "none"),
        PlainField(q.sortBy)];
      PairsColonFree(FIELD_NAMES, values);
      assert Fields(q) == [FIELD_NAMES[0], values[0], FIELD_NAMES[1], values[1], FIELD_NAMES[2], values[2],
        FIELD_NAMES[3], values[3], FIELD_NAMES[4], values[4], FIELD_NAMES[5], values[5], FIELD_NAMES[6], values[6]]
        + ["sortOrder", OrderField(q.sortOrder)];
    }
  }

  function Start(w: string, p: string, q: Query): seq<string> {
    Head(w, p) + ["page", NumberField(q.page), "limit", NumberField(q.limit), "status"]
  }

  lemma StartColonFree(w: string, p: string, q: Query)
    requires CleanId(w) && CleanId(p)
    ensures AllColonFree(Start(w, p, q))
  {
    NamesColonFree();
    NumberFieldInjective(q.page, q.page);
    NumberFieldInjective(q.limit, q.limit);
    FieldsColonFree(w, p, q);
    assert AllColonFree(["page", NumberField(q.page), "limit", NumberField(q.limit), "status"]);
  }

  lemma JoinPair(field: string, name: string, tail: seq<string>, fields: seq<string>, labels: seq<string>)
    returns (tail': seq<string>, fields': seq<string>, labels': seq<string>)
    requires tail != [] && |fields| == |labels| + 1 && Join(tail) == Woven(fields, labels)
    ensures tail' == [field, name] + tail && fields' == [field] + fields && labels' == [name] + labels
    ensures Join(tail') == Woven(fields', labels')
  {
    tail', fields', labels' := [field, name] + tail, [field] + fields, [name] + labels;
    assert tail'[1..] == [name] + tail && ([name] + tail)[1..] == tail;
    assert fields'[1..] == fields && labels'[1..] == labels;
  }

  lemma Flatten(a: string, b: string, c: string, d: string, e: string, f: string)
    ensures [a, "priority"] + ([b, "assignee"] + ([c, "search"] + ([d, "sortBy"] + ([e, "sortOrder"] + [f]))))
         == [a, "priority", b, "assignee", c, "search", d, "sortBy", e, "sortOrder", f]
    ensures [a] + ([b] + ([c] + ([d] + ([e] + [f])))) == [a, b, c, d, e, f]
    ensures ["priority"] + (["assignee"] + (["search"] + (["sortBy"] + (["sortOrder"] + [])))) == LABELS
  {
  }

  lemma TailIsWoven(a: string, b: string, c: string, d: string, e: string, f: string)
    ensures Join([a, "priority", b, "assignee", c, "search", d, "sortBy", e, "sortOrder", f])
         == Woven([a, b, c, d, e, f], LABELS)
  {
    Flatten(a, b, c, d, e, f);
    var tail, fields, labels := JoinPair(e, "sortOrder", [f], [f], []);
    tail, fields, labels := JoinPair(d, "sortBy", tail, fields, labels);
    tail, fields, labels := JoinPair(c, "search", tail, fields, labels);
    tail, fields, labels := JoinPair(b, "assignee", tail, fields, labels);
    tail, fields, labels := JoinPair(a, "priority", tail, fields, labels);
  }

  lemma TextsAreWoven(w: string, p: string, q: Query)
    ensures ListKey(w, p, q) == Join(Start(w, p, q)) + ":" + Woven(Texts(q), LABELS)
  {
    var t := Texts(q);
    var tail := [t[0], "priority", t[1], "assignee", t[2], "search", t[3], "sortBy", t[4], "sortOrder", t[5]];
    assert Head(w, p) + Fields(q) == Start(w, p, q) + tail;
    JoinConcat(Start(w, p, q), tail);
    TailIsWoven(t[0], t[1], t[2], t[3], t[4], t[5]);
  }

  /** What a key tells: the project, and every field of the query as it is written into the key. */
  lemma KeyTellsFields(w: string, p: string, q: Query, w': string, p': string, q': Query)
    requires CleanId(w) && CleanId(p)
    requires ColonFreeQuery(q) || (LabelFree(q) && CleanId(w') && CleanId(p'))
    requires ListKey(w, p, q) == ListKey(w', p', q')
    ensures w == w' && p == p' && Fields(q) == Fields(q')
  {
    var parts, parts' := Head(w, p) + Fields(q), Head(w', p') + Fields(q');
    if ColonFreeQuery(q) {
      FieldsColonFree(w, p, q);
      JoinInjective(parts, parts');
      assert parts[1] == w && parts'[1] == w' && parts[3] == p && parts'[3] == p';
      assert Fields(q) == parts[5..] == parts'[5..] == Fields(q');
    } else {
      LabelFreeKeyTellsFields(w, p, q, w', p', q');
    }
  }

  lemma LabelFreeKeyTellsFields(w: string, p: string, q: Query, w': string, p': string, q': Query)
    requires CleanId(w) && CleanId(p) && CleanId(w') && CleanId(p') && LabelFree(q)
    requires ListKey(w, p, q) == ListKey(w', p', q')
    ensures w == w' && p == p' && Fields(q) == Fields(q')
  {
    var a, a', t, t' := Start(w, p, q), Start(w', p', q'), Texts(q), Texts(q');
    var x, x' := Woven(t, LABELS), Woven(t', LABELS);
    TextsAreWoven(w, p, q);
    TextsAreWoven(w', p', q');
    StartColonFree(w, p, q);
    StartColonFree(w', p', q');
    HeadDetermined(a, x, a', x');
    assert a[1] == w && a'[1] == w' && a[3] == p && a'[3] == p';
    assert a[6] == NumberField(q.page) && a'[6] == NumberField(q'.page);
    assert a[8] == NumberField(q.limit) && a'[8] == NumberField(q'.limit);
    assert x == ListKey(w, p, q)[|Join(a)| + 1..] == x';
    NamesColonFree();
    assert AllColonFree(LABELS);
    LabelsDistinct();
    WovenInjective(t, t', LABELS);
    assert t[0] == t'[0] && t[1] == t'[1] && t[2] == t'[2] && t[3] == t'[3] && t[4] == t'[4] && t[5] == t'[5];
  }

  lemma LabelsDistinct()
    ensures Distinct(LABELS)
  {
    assert "priority"[0] == 'p' && "assignee"[0] == 'a' && "search"[0] == 's';
    assert |"search"| == |"sortBy"| == 6 && "search"[1] == 'e' && "sortBy"[1] == 'o' && |"sortOrder"| == 9;
  }

  /**
   * A query without colons, or whose colons spell out no label, shares its key only with queries of the same
   * project, the same numbers and the same order, and then they denote the same page exactly when they
   * restrict the same columns.
   */
  lemma SharedKeyMeaning(w: string, p: string, q: Query, w': string, p': string, q': Query)
    requires CleanId(w) && CleanId(p)
    requires ColonFreeQuery(q) || (LabelFree(q) && CleanId(w') && CleanId(p'))
    requires ListKey(w, p, q) == ListKey(w', p', q')
    ensures w == w' && p == p' && q.page == q'.page && q.limit == q'.limit && q.sortOrder == q'.sortOrder
    ensures MeaningOf(q) == MeaningOf(q') <==> SameFilters(q, q')
  {
    KeyTellsFields(w, p, q, w', p', q');
    FieldsDetermine(q, q');
  }

  /** Sane queries: one key, one page of one project. */
  lemma SaneKeysAreExact(w: string, p: string, q: Query, w': string, p': string, q': Query)
    requires CleanId(w) && CleanId(p) && Sane(q) && SentinelFree(q')
    requires ColonFreeQuery(q) || (CleanId(w') && CleanId(p'))
    requires ListKey(w, p, q) == ListKey(w', p', q')
    ensures w == w' && p == p' && MeaningOf(q) == MeaningOf(q')
  {
    KeyTellsFields(w, p, q, w', p', q');
    FieldsDetermine(q, q');
    var f, f' := Fields(q), Fields(q');
    assert f[5] == f'[5] && f[7] == f'[7] && f[9] == f'[9] && f[11] == f'[11];
  }

  const DEFAULT_QUERY := Query(Some(1), Some(10), None, None, None, None, Some("createdAt"), Some(DESC))

  /** Filtering for the word "all" is cached under the key of the unfiltered list. */
  lemma SentinelCollision(w: string, p: string)
    ensures var q := DEFAULT_QUERY.(status := Some("all"));
      ListKey(w, p, q) == ListKey(w, p, DEFAULT_QUERY) && MeaningOf(q) != MeaningOf(DEFAULT_QUERY)
  {
  }

  /** With a colon in a text field, two sentinel-free queries with different meanings can share a key. */
  lemma ColonCollision(w: string, p: string)
    ensures var q := DEFAULT_QUERY.(search := Some("x:sortBy:title"));
      var q' := DEFAULT_QUERY.(search := Some("x"), sortBy := Some("title:sortBy:createdAt"));
      && SentinelFree(q) && SentinelFree(q')
      && ListKey(w, p, q) == ListKey(w, p, q') && MeaningOf(q) != MeaningOf(q')
  {
    var q := DEFAULT_QUERY.(search := Some("x:sortBy:title"));
    var q' := DEFAULT_QUERY.(search := Some("x"), sortBy := Some("title:sortBy:createdAt"));
    var pre, post := Head(w, p) + Fields(q)[..11], ["sortOrder", "DESC"];
    SameJoin(pre, "x", "sortBy", "title", "sortBy", "createdAt", post);
    assert "x" + ":" + ("sortBy" + ":" + "title") == "x:sortBy:title";
    assert "title" + ":" + ("sortBy" + ":" + "createdAt") == "title:sortBy:createdAt";
    assert Head(w, p) + Fields(q) == pre + (["x:sortBy:title", "sortBy", "createdAt"] + post);
    assert Head(w, p) + Fields(q') == pre + (["x", "sortBy", "title:sortBy:createdAt"] + post);
    assert Truthy(q.search) != Truthy(q'.search);
  }

  /** A field that itself contains joined fields is indistinguishable from those fields. */
  lemma SameJoin(pre: seq<string>, a: string, b: string, c: string, d: string, e: string, post: seq<string>)
    requires pre != [] && post != []
    ensures Join(pre + ([a + ":" + (b + ":" + c), d, e] + post)) == Join(pre + ([a, b, c + ":" + (d + ":" + e)] + post))
  {
    var x, y := [a + ":" + (b + ":" + c), d, e], [a, b, c + ":" + (d + ":" + e)];
    JoinThree(x[0], d, e);
    JoinThree(a, b, y[2]);
    assert Join(x) == Join(y) == a + ":" + (b + ":" + (c + ":" + (d + ":" + e)));
    JoinConcat(x, post);
    JoinConcat(y, post);
    JoinConcat(pre, x + post);
    JoinConcat(pre, y + post);
  }

  lemma JoinThree(a: string, b: string, c: string)
    ensures Join([a, b, c]) == a + ":" + (b + ":" + c)
  {
    assert [a, b, c][1..] == [b, c] && [b, c][1..] == [c];
    assert Join([b, c]) == b + ":" + c;
  }

  // ------------------------------------------------------------ patterns against keys

  lemma {:induction false} JoinGlobFree(parts: seq<string>)
    requires parts != [] && forall p <- parts :: CacheStore.GlobFree(p)
    ensures CacheStore.GlobFree(Join(parts))
    decreases parts
  {
    assert parts[0] in parts;
    if |parts| > 1 {
      JoinGlobFree(parts[1..]);
    }
  }

  lemma PatternIsPrefix(w: string, p: string, key: string)
    requires CleanId(w) && CleanId(p)
    ensures CacheStore.Matches(ListPattern(w, p), key) <==> ListPrefix(w, p) <= key
  {
    assert CacheStore.GlobFree("workspace") && CacheStore.GlobFree("project") && CacheStore.GlobFree("tasks");
    JoinGlobFree(Head(w, p));
    CacheStore.LiteralStarIsPrefix(ListPrefix(w, p), key);
  }

  /** Invalidating one project drops the keys of its lists, whatever the query, and of no other project. */
  lemma PatternHitsExactlyOwnLists(w: string, p: string, w': string, p': string, q: Query)
    requires CleanId(w) && CleanId(p) && CleanId(w') && CleanId(p')
    ensures CacheStore.Matches(ListPattern(w, p), ListKey(w', p', q)) <==> w == w' && p == p'
  {
    var key := ListKey(w', p', q);
    PatternIsPrefix(w, p, key);
    JoinConcat(Head(w', p'), Fields(q));
    assert key == ListPrefix(w', p') + Join(Fields(q));
    FieldsColonFree(w, p, q);
    FieldsColonFree(w', p', q);
    if ListPrefix(w, p) <= key {
      var rest := key[|ListPrefix(w, p)|..];
      assert key == ListPrefix(w, p) + rest;
      HeadDetermined(Head(w, p), rest, Head(w', p'), Join(Fields(q)));
      assert Head(w, p)[1] == w && Head(w', p')[1] == w' && Head(w, p)[3] == p && Head(w', p')[3] == p';
    }
  }

  lemma TaskKeysAreDistinct(id: string, id': string, w: string, p: string, q: Query)
    ensures TaskKey(id) == TaskKey(id') ==> id == id'
    ensures TaskKey(id) != ListKey(w, p, q)
    ensures CleanId(w) && CleanId(p) ==> !CacheStore.Matches(ListPattern(w, p), TaskKey(id))
  {
    assert TaskKey(id)[8..] == id && TaskKey(id')[8..] == id';
    assert TaskKey(id)[0] == 't';
    JoinConcat(Head(w, p), Fields(q));
    assert Join(Head(w, p))[0] == "workspace"[0] == 'w';
    if CleanId(w) && CleanId(p) {
      PatternIsPrefix(w, p, TaskKey(id));
    }
  }
}
