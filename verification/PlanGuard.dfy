/** The plan guardrail: URLs and field names corrected against the knowledge base, all down the tree. */
module PlanGuard {
  import opened Collections

  /** A plan node; an absent string or list is modelled as an empty one, as the code treats both alike. */
  datatype PlanNode = PlanNode(
    layer: string, layerUrl: string, fields: seq<string>,
    tool: Option<string>, joinType: Option<string>, children: seq<PlanNode>)

  datatype Layer = Layer(name: string, url: string, fields: seq<string>)

  /**
   Text operations that are not part of the model: upper-casing, and cutting a trailing SQL alias
   off a field name. Both are idempotent.
   */
  datatype Text = Text(upper: string -> string, base: string -> string) {
    ghost predicate Idempotent() {
      && (forall s :: upper(upper(s)) == upper(s))
      && (forall s :: base(base(s)) == base(s))
    }
  }

  datatype Kb = Kb(urlOf: map<string, string>, fieldsOf: map<string, set<string>>, knownUrls: set<string>)

  function UpperAll(t: Text, fields: seq<string>): (r: set<string>)
    ensures forall x :: x in r <==> exists i :: 0 <= i < |fields| && x == t.upper(fields[i])
  {
    set i | 0 <= i < |fields| :: t.upper(fields[i])
  }

  /** Layer `i` is the last one of its name, case aside. */
  ghost predicate LastOfName(t: Text, layers: seq<Layer>, i: nat, name: string) {
    && i < |layers| && t.upper(layers[i].name) == name
    && forall j :: i < j < |layers| ==> t.upper(layers[j].name) != name
  }

  /**
   A name leads to the URL and the fields of the last layer of that name, names of no layer lead nowhere, and
   the URLs of all layers are known.
   */
  ghost predicate AreTables(t: Text, layers: seq<Layer>, kb: Kb) {
    && kb.urlOf.Keys == kb.fieldsOf.Keys
    && (forall name :: name in kb.urlOf <==> exists i: nat :: LastOfName(t, layers, i, name))
    && (forall i: nat, name :: LastOfName(t, layers, i, name) && name in kb.urlOf ==>
          kb.urlOf[name] == layers[i].url && kb.fieldsOf[name] == UpperAll(t, layers[i].fields))
    && (forall url :: url in kb.knownUrls <==> exists i :: 0 <= i < |layers| && layers[i].url == url)
  }

  lemma {:induction false} LastOfNameSnoc(t: Text, layers: seq<Layer>, l: Layer, i: nat, name: string)
    ensures LastOfName(t, layers + [l], i, name) <==>
            if t.upper(l.name) == name then i == |layers| else LastOfName(t, layers, i, name)
  {
    var all := layers + [l];
    assert forall j :: 0 <= j < |layers| ==> all[j] == layers[j];
    assert all[|layers|] == l;
  }

  lemma {:induction false} TablesSnoc(t: Text, layers: seq<Layer>, l: Layer, kb: Kb)
    requires AreTables(t, layers, kb)
    ensures var name := t.upper(l.name);
            AreTables(t, layers + [l],
                      Kb(kb.urlOf[name := l.url], kb.fieldsOf[name := UpperAll(t, l.fields)], kb.knownUrls + {l.url}))
  {
    hide LastOfName, UpperAll;
    var all, own := layers + [l], t.upper(l.name);
    forall i: nat, name
      ensures LastOfName(t, all, i, name) <==> if own == name then i == |layers| else LastOfName(t, layers, i, name)
    {
      LastOfNameSnoc(t, layers, l, i, name);
    }
    assert LastOfName(t, all, |layers|, own);
    assert forall j :: 0 <= j < |layers| ==> all[j] == layers[j];
    assert all[|layers|] == l;
    forall i: nat, name | LastOfName(t, layers, i, name) ensures i < |layers| { LastInRange(t, layers, i, name); }
  }

  lemma LastInRange(t: Text, layers: seq<Layer>, i: nat, name: string)
    requires LastOfName(t, layers, i, name)
    ensures i < |layers|
  {
  }

  lemma {:induction false} TablesAreTables(t: Text, layers: seq<Layer>)
    ensures AreTables(t, layers, Tables(t, layers))
  {
    hide AreTables;
    if layers == [] {
      NoTables(t);
    } else {
      var last := |layers| - 1;
      TablesAreTables(t, layers[..last]);
      TablesSnoc(t, layers[..last], layers[last], Tables(t, layers[..last]));
      assert layers[..last] + [layers[last]] == layers;
    }
  }

  lemma NoTables(t: Text)
    ensures AreTables(t, [], Kb(map[], map[], {}))
  {
  }

  /** The lookup tables; a later layer of the same name takes over, every URL stays known. */
  method BuildTables(t: Text, layers: seq<Layer>) returns (kb: Kb)
    ensures AreTables(t, layers, kb)
    ensures kb == Tables(t, layers)
  {
    TablesAreTables(t, layers);
    kb := Kb(map[], map[], {});
    assert layers[..0] == [];
    for i := 0 to |layers|
      invariant kb == Tables(t, layers[..i])
    {
      var l := layers[i];
      var name := t.upper(l.name);
      assert layers[..i + 1][..i] == layers[..i];
      kb := Kb(kb.urlOf[name := l.url], kb.fieldsOf[name := UpperAll(t, l.fields)], kb.knownUrls + {l.url});
    }
    assert layers[..|layers|] == layers;
  }

  function Tables(t: Text, layers: seq<Layer>): Kb {
    if layers == [] then Kb(map[], map[], {})
    else
      var kb, l := Tables(t, layers[..|layers| - 1]), layers[|layers| - 1];
      Kb(kb.urlOf[t.upper(l.name) := l.url],
         kb.fieldsOf[t.upper(l.name) := UpperAll(t, l.fields)],
         kb.knownUrls + {l.url})
  }

  /** Both tables know the same layers, and every URL they hand out is known. */
  ghost predicate Coherent(kb: Kb) {
    && kb.urlOf.Keys == kb.fieldsOf.Keys
    && forall name :: name in kb.urlOf ==> kb.urlOf[name] in kb.knownUrls
  }

  lemma {:induction false} TablesCoherent(t: Text, layers: seq<Layer>)
    ensures Coherent(Tables(t, layers))
  {
    if layers != [] {
      TablesCoherent(t, layers[..|layers| - 1]);
    }
  }

  // ---- One node ---------------------------------------------------------------------------

  function Sanitize(t: Text, fields: seq<string>): (r: seq<string>)
    ensures forall x :: x in r ==> x != "" && exists i :: 0 <= i < |fields| && x == t.base(fields[i])
  {
    if fields == [] then []
    else
      (if t.base(fields[0]) == "" then [] else [t.base(fields[0])]) + Sanitize(t, fields[1..])
  }

  function Known(t: Text, known: set<string>, fields: seq<string>): (r: seq<string>)
    ensures forall x :: x in r <==> x in fields && t.upper(x) in known
  {
    if fields == [] then []
    else
      assert fields == [fields[0]] + fields[1..];
      (if t.upper(fields[0]) in known then [fields[0]] else []) + Known(t, known, fields[1..])
  }

  function FixUrl(kb: Kb, name: string, url: string): string {
    if url != "" && url !in kb.knownUrls then
      if name in kb.urlOf && kb.urlOf[name] != "" then kb.urlOf[name] else url
    else if url == "" && name in kb.urlOf then kb.urlOf[name]
    else url
  }

  function FixFields(t: Text, kb: Kb, name: string, fields: seq<string>): seq<string> {
    if fields != [] && name in kb.fieldsOf then
      var clean := Sanitize(t, fields);
      var valid := Known(t, kb.fieldsOf[name], clean);
      if valid != [] then valid else clean
    else fields
  }

  function FixNode(t: Text, kb: Kb, n: PlanNode): PlanNode
    decreases n, 0
  {
    var name := t.upper(n.layer);
    var renamed := n.tool.Some? && n.joinType.None?;
    PlanNode(n.layer, FixUrl(kb, name, n.layerUrl), FixFields(t, kb, name, n.fields),
             if renamed then None else n.tool, if renamed then n.tool else n.joinType,
             FixAll(t, kb, n.children))
  }

  function FixAll(t: Text, kb: Kb, ns: seq<PlanNode>): (r: seq<PlanNode>)
    ensures |r| == |ns|
    decreases ns
  {
    if ns == [] then [] else [FixNode(t, kb, ns[0])] + FixAll(t, kb, ns[1..])
  }

  // ---- The tree rewritten in place ----------------------------------------------------------

  /**
   A plan node as the mutable dictionary it is. The shape of the tree never changes: only the
   entries of its nodes are rewritten.
   */
  class PlanDict {
    const layer: string
    var layerUrl: string
    var fields: seq<string>
    var tool: Option<string>
    var joinType: Option<string>
    const children: seq<PlanDict>
    ghost const repr: set<PlanDict>
    ghost const height: nat

    constructor (n: PlanNode, children: seq<PlanDict>)
      requires forall c :: c in children ==> c.IsTree()
      requires forall i, j :: 0 <= i < j < |children| ==> children[i].repr !! children[j].repr
      ensures IsTree() && this.children == children && layer == n.layer && layerUrl == n.layerUrl
      ensures fields == n.fields && tool == n.tool && joinType == n.joinType
    {
      this.layer, layerUrl, fields, tool, joinType := n.layer, n.layerUrl, n.fields, n.tool, n.joinType;
      this.children := children;
      repr := {this} + set c, o | c in children && o in c.repr :: o;
      height := 1 + MaxHeight(children);
    }

    /** The node and its descendants form a tree: no dictionary is shared between two places. */
    ghost predicate IsTree()
      decreases height
    {
      && this in repr
      && (forall c :: c in children ==> c.height < height && c.repr <= repr && this !in c.repr && c.IsTree())
      && (forall i, j :: 0 <= i < j < |children| ==> children[i].repr !! children[j].repr)
    }

    /** The plan node this dictionary stands for. */
    ghost function View(): PlanNode
      requires IsTree()
      reads repr
      decreases height, |children| + 1
    {
      PlanNode(layer, layerUrl, fields, tool, joinType, ChildViews(0))
    }

    ghost function ChildViews(from: nat): (r: seq<PlanNode>)
      requires IsTree() && from <= |children|
      reads repr
      ensures |r| == |children| - from
      ensures forall i :: 0 <= i < |r| ==> r[i] == children[from + i].View()
      decreases height, |children| - from
    {
      if from == |children| then []
      else
        assert children[from] in children;
        [children[from].View()] + ChildViews(from + 1)
    }

    /** The entries of this node: the renamed tool, the URL guardrail, the field guardrail. */
    method FixEntries(t: Text, kb: Kb)
      modifies this
      ensures layerUrl == FixUrl(kb, t.upper(layer), old(layerUrl))
      ensures fields == FixFields(t, kb, t.upper(layer), old(fields))
      ensures var renamed := old(tool).Some? && old(joinType).None?;
              tool == (if renamed then None else old(tool)) && joinType == if renamed then old(tool) else old(joinType)
    {
      var name := t.upper(layer);
      if tool.Some? && joinType.None? {
        joinType := tool;
        tool := None;
      }
      if layerUrl != "" && layerUrl !in kb.knownUrls {
        if name in kb.urlOf && kb.urlOf[name] != "" {
          layerUrl := kb.urlOf[name];
        }
      } else if layerUrl == "" && name in kb.urlOf {
        layerUrl := kb.urlOf[name];
      }
      if fields != [] && name in kb.fieldsOf {
        fields := Sanitize(t, fields);
        var valid := Known(t, kb.fieldsOf[name], fields);
        if valid != [] {
          fields := valid;
        }
      }
    }

    method Fix(t: Text, kb: Kb)
      requires IsTree()
      modifies repr
      ensures View() == FixNode(t, kb, old(View()))
      decreases height, 2
    {
      ghost var before := ChildViews(0);
      FixEntries(t, kb);
      forall j | 0 <= j < |children| ensures children[j].View() == old(children[j].View()) {
        assert children[j] in children;
      }
      assert ChildViews(0) == before;
      hide FixUrl, FixFields, IsTree, FixAll;
      FixChildrenInPlace(t, kb);
    }

    /** The node itself stays as it is. */
    method FixDescendants(t: Text, kb: Kb)
      requires IsTree()
      modifies repr - {this}
      ensures View() == old(View()).(children := FixAll(t, kb, old(View()).children))
      decreases height, 2
    {
      hide FixAll, IsTree;
      FixChildrenInPlace(t, kb);
    }

    /** The children are trees of their own, away from each other and from this node. */
    lemma ChildrenApart()
      requires IsTree()
      ensures forall j :: 0 <= j < |children| ==>
        && children[j].IsTree() && children[j].height < height
        && children[j].repr <= repr && this !in children[j].repr
      ensures forall i, j :: 0 <= i < |children| && 0 <= j < |children| && i != j ==>
        children[i].repr !! children[j].repr
    {
      forall j | 0 <= j < |children|
        ensures children[j].IsTree() && children[j].height < height
        ensures children[j].repr <= repr && this !in children[j].repr
      {
        assert children[j] in children;
      }
    }

    /** The children stand for the nodes `vs`. */
    ghost predicate Shows(vs: seq<PlanNode>)
      requires IsTree()
      reads repr
    {
      ChildViews(0) == vs
    }

    lemma ShownViews(vs: seq<PlanNode>)
      requires IsTree()
      ensures Shows(vs) <==> |vs| == |children| && forall j :: 0 <= j < |children| ==> children[j].View() == vs[j]
    {
      hide View;
      ChildrenApart();
    }

    /** One turn of the loop: child `i` is fixed, the other children are left alone. */
    method FixChild(t: Text, kb: Kb, i: nat, ghost vs: seq<PlanNode>)
      requires IsTree() && Shows(vs) && i < |children| && i < |vs|
      modifies repr - {this}
      ensures Shows(vs[i := FixNode(t, kb, vs[i])])
      decreases height, 0
    {
      hide IsTree, View, FixNode, Shows;
      ChildrenApart();
      ShownViews(vs);
      children[i].Fix(t, kb);
      ShownViews(vs[i := FixNode(t, kb, vs[i])]);
    }

    /** The loop over the children. */
    method FixChildrenInPlace(t: Text, kb: Kb)
      requires IsTree()
      modifies repr - {this}
      ensures ChildViews(0) == FixAll(t, kb, old(ChildViews(0)))
      decreases height, 1
    {
      hide FixNode, FixAll, IsTree, FixedUpTo;
      ghost var views := ChildViews(0);
      FixedUpToEnds(t, kb, views);
      for i := 0 to |children|
        invariant Shows(FixedUpTo(t, kb, views, i))
      {
        FixedUpToNext(t, kb, views, i);
        FixChild(t, kb, i, FixedUpTo(t, kb, views, i));
      }
    }
  }

  ghost function MaxHeight(cs: seq<PlanDict>): (m: nat)
    ensures forall c :: c in cs ==> c.height <= m
  {
    if cs == [] then 0
    else
      var m := MaxHeight(cs[1..]);
      if cs[0].height > m then cs[0].height else m
  }

  /** The first `n` nodes fixed, the others as they were. */
  function FixedUpTo(t: Text, kb: Kb, views: seq<PlanNode>, n: nat): (r: seq<PlanNode>)
    requires n <= |views|
    ensures |r| == |views|
  {
    FixAll(t, kb, views[..n]) + views[n..]
  }

  lemma {:induction false} FixedUpToEnds(t: Text, kb: Kb, views: seq<PlanNode>)
    ensures FixedUpTo(t, kb, views, 0) == views
    ensures FixedUpTo(t, kb, views, |views|) == FixAll(t, kb, views)
  {
    assert views[..0] == [] && views[..|views|] == views;
  }

  lemma {:induction false} FixedUpToNext(t: Text, kb: Kb, views: seq<PlanNode>, n: nat)
    requires n < |views|
    ensures var r := FixedUpTo(t, kb, views, n);
            FixedUpTo(t, kb, views, n + 1) == r[n := FixNode(t, kb, r[n])]
  {
    hide FixNode, FixAll;
    FixAllPointwise(t, kb, views[..n]);
    FixAllPointwise(t, kb, views[..n + 1]);
  }

  lemma {:induction false} FixAllPointwise(t: Text, kb: Kb, ns: seq<PlanNode>)
    ensures forall i :: 0 <= i < |ns| ==> FixAll(t, kb, ns)[i] == FixNode(t, kb, ns[i])
  {
    if ns != [] {
      FixAllPointwise(t, kb, ns[1..]);
    }
  }

  // ---- Idempotence ------------------------------------------------------------------------

  lemma {:induction false} SanitizeFixed(t: Text, fields: seq<string>)
    requires forall x :: x in fields ==> t.base(x) == x && x != ""
    ensures Sanitize(t, fields) == fields
  {
    if fields != [] {
      assert fields[0] in fields;
      assert forall x :: x in fields[1..] ==> x in fields;
      SanitizeFixed(t, fields[1..]);
    }
  }

  lemma {:induction false} KnownFixed(t: Text, known: set<string>, fields: seq<string>)
    requires forall x :: x in fields ==> t.upper(x) in known
    ensures Known(t, known, fields) == fields
  {
    if fields != [] {
      assert fields[0] in fields;
      assert forall x :: x in fields[1..] ==> x in fields;
      KnownFixed(t, known, fields[1..]);
    }
  }

  lemma {:induction false} NoneKnown(t: Text, known: set<string>, fields: seq<string>)
    requires forall x :: x in fields ==> t.upper(x) !in known
    ensures Known(t, known, fields) == []
  {
    if fields != [] {
      assert fields[0] in fields;
      assert forall x :: x in fields[1..] ==> x in fields;
      NoneKnown(t, known, fields[1..]);
    }
  }

  /** No field keeps an alias, and either all fields are known for the layer or none is. */
  ghost predicate FieldsClean(t: Text, known: set<string>, fields: seq<string>) {
    && (forall x :: x in fields ==> t.base(x) == x && x != "")
    && ((forall x :: x in fields ==> t.upper(x) in known) || (forall x :: x in fields ==> t.upper(x) !in known))
  }

  lemma {:induction false} FixedFieldsClean(t: Text, kb: Kb, name: string, fields: seq<string>)
    requires t.Idempotent() && name in kb.fieldsOf
    ensures FieldsClean(t, kb.fieldsOf[name], FixFields(t, kb, name, fields))
  {
    if fields != [] {
      var clean := Sanitize(t, fields);
      var valid := Known(t, kb.fieldsOf[name], clean);
      if valid == [] {
        forall x | x in clean ensures t.upper(x) !in kb.fieldsOf[name] {
          assert x !in valid;
        }
      }
    }
  }

  lemma {:induction false} CleanFieldsStay(t: Text, kb: Kb, name: string, fields: seq<string>)
    requires name in kb.fieldsOf && FieldsClean(t, kb.fieldsOf[name], fields)
    ensures FixFields(t, kb, name, fields) == fields
  {
    SanitizeFixed(t, fields);
    if forall x :: x in fields ==> t.upper(x) in kb.fieldsOf[name] {
      KnownFixed(t, kb.fieldsOf[name], fields);
    } else {
      NoneKnown(t, kb.fieldsOf[name], fields);
    }
  }

  lemma {:induction false} FixUrlIdempotent(kb: Kb, name: string, url: string)
    requires Coherent(kb)
    ensures FixUrl(kb, name, FixUrl(kb, name, url)) == FixUrl(kb, name, url)
  {
  }

  lemma {:induction false} FixNodeIdempotent(t: Text, kb: Kb, n: PlanNode)
    requires t.Idempotent() && Coherent(kb)
    ensures FixNode(t, kb, FixNode(t, kb, n)) == FixNode(t, kb, n)
    decreases n, 0
  {
    var name := t.upper(n.layer);
    FixUrlIdempotent(kb, name, n.layerUrl);
    if name in kb.fieldsOf {
      FixedFieldsClean(t, kb, name, n.fields);
      CleanFieldsStay(t, kb, name, FixFields(t, kb, name, n.fields));
    }
    FixAllIdempotent(t, kb, n.children);
  }

  lemma {:induction false} FixAllIdempotent(t: Text, kb: Kb, ns: seq<PlanNode>)
    requires t.Idempotent() && Coherent(kb)
    ensures FixAll(t, kb, FixAll(t, kb, ns)) == FixAll(t, kb, ns)
    decreases ns
  {
    if ns != [] {
      FixNodeIdempotent(t, kb, ns[0]);
      FixAllIdempotent(t, kb, ns[1..]);
      assert FixAll(t, kb, ns)[1..] == FixAll(t, kb, ns[1..]);
    }
  }

  // ---- What every visited node looks like afterwards --------------------------------------

  /** A node of a known layer carries a known URL and clean fields, and so do all its descendants. */
  ghost predicate Corrected(t: Text, kb: Kb, n: PlanNode)
    decreases n, 0
  {
    var name := t.upper(n.layer);
    && (name in kb.urlOf ==>
          n.layerUrl in kb.knownUrls && name in kb.fieldsOf && FieldsClean(t, kb.fieldsOf[name], n.fields))
    && !(n.tool.Some? && n.joinType.None?)
    && AllCorrected(t, kb, n.children)
  }

  ghost predicate AllCorrected(t: Text, kb: Kb, ns: seq<PlanNode>)
    decreases ns
  {
    ns == [] || (Corrected(t, kb, ns[0]) && AllCorrected(t, kb, ns[1..]))
  }

  ghost predicate UrlsNonEmpty(kb: Kb) {
    "" !in kb.knownUrls
  }

  lemma {:induction false} FixNodeCorrects(t: Text, kb: Kb, n: PlanNode)
    requires t.Idempotent() && Coherent(kb) && UrlsNonEmpty(kb)
    ensures Corrected(t, kb, FixNode(t, kb, n))
    decreases n, 0
  {
    var name := t.upper(n.layer);
    if name in kb.urlOf {
      assert name in kb.fieldsOf.Keys;
      FixedFieldsClean(t, kb, name, n.fields);
    }
    FixAllCorrects(t, kb, n.children);
  }

  lemma {:induction false} FixAllCorrects(t: Text, kb: Kb, ns: seq<PlanNode>)
    requires t.Idempotent() && Coherent(kb) && UrlsNonEmpty(kb)
    ensures AllCorrected(t, kb, FixAll(t, kb, ns))
    decreases ns
  {
    if ns != [] {
      FixNodeCorrects(t, kb, ns[0]);
      FixAllCorrects(t, kb, ns[1..]);
      assert FixAll(t, kb, ns)[1..] == FixAll(t, kb, ns[1..]);
    }
  }

  // ---- What becomes of every entry --------------------------------------------------------

  /** Field `j` stays: something is left without its alias, and it is known unless no field of the list is. */
  ghost predicate StaysAt(t: Text, known: set<string>, fields: seq<string>, j: nat) {
    && j < |fields| && t.base(fields[j]) != ""
    && (t.upper(t.base(fields[j])) in known || NoneIsKnown(t, known, fields))
  }

  ghost predicate NoneIsKnown(t: Text, known: set<string>, fields: seq<string>) {
    forall i :: 0 <= i < |fields| && t.base(fields[i]) != "" ==> t.upper(t.base(fields[i])) !in known
  }

  /** `left` lists the fields at the positions `at`, in order and without their aliases. */
  ghost predicate Picks(t: Text, fields: seq<string>, at: seq<nat>, left: seq<string>) {
    && |left| == |at| && (forall i, j :: 0 <= i < j < |at| ==> at[i] < at[j])
    && forall i :: 0 <= i < |at| ==> at[i] < |fields| && left[i] == t.base(fields[at[i]])
  }

  /** Exactly the fields that stay are left, each as often and in the order they were listed. */
  ghost predicate FieldsKept(t: Text, known: set<string>, fields: seq<string>, left: seq<string>) {
    exists at: seq<nat> :: Picks(t, fields, at, left) && forall j: nat :: j in at <==> StaysAt(t, known, fields, j)
  }

  /** An absent or unknown URL gives way to the URL of the layer, if that has one; every other URL stays. */
  ghost predicate UrlKept(kb: Kb, name: string, url: string, now: string) {
    && (now != url ==> (url == "" || url !in kb.knownUrls) && name in kb.urlOf && now == kb.urlOf[name])
    && ((url == "" || url !in kb.knownUrls) && name in kb.urlOf && kb.urlOf[name] != "" ==> now == kb.urlOf[name])
  }

  /** `m` is `n` repaired, and its descendants are those of `n` repaired. */
  ghost predicate Repaired(t: Text, kb: Kb, n: PlanNode, m: PlanNode)
    decreases n, 0
  {
    var name := t.upper(n.layer);
    && m.layer == n.layer
    && UrlKept(kb, name, n.layerUrl, m.layerUrl)
    && (if name in kb.fieldsOf && n.fields != [] then FieldsKept(t, kb.fieldsOf[name], n.fields, m.fields)
        else m.fields == n.fields)
    && (if n.joinType == None then m.joinType == n.tool && m.tool == None
        else m.joinType == n.joinType && m.tool == n.tool)
    && AllRepaired(t, kb, n.children, m.children)
  }

  ghost predicate AllRepaired(t: Text, kb: Kb, ns: seq<PlanNode>, ms: seq<PlanNode>)
    decreases ns
  {
    |ns| == |ms| && (ns != [] ==> Repaired(t, kb, ns[0], ms[0]) && AllRepaired(t, kb, ns[1..], ms[1..]))
  }

  function IsKnown(t: Text, known: set<string>): string -> bool {
    x => t.upper(x) in known
  }

  function Anything(): string -> bool {
    x => true
  }

  /** Position `j` is among those from `from` on whose base is to be kept. */
  ghost predicate KeptAt(t: Text, keep: string -> bool, fields: seq<string>, from: nat, j: nat) {
    from <= j < |fields| && t.base(fields[j]) != "" && keep(t.base(fields[j]))
  }

  lemma {:induction false} PicksCons(t: Text, fields: seq<string>, at: seq<nat>, left: seq<string>, j: nat)
    requires Picks(t, fields, at, left) && j < |fields| && forall i :: 0 <= i < |at| ==> j < at[i]
    ensures Picks(t, fields, [j] + at, [t.base(fields[j])] + left)
  {
  }

  /** The positions of the bases that are kept. */
  lemma {:induction false} FieldsPicked(t: Text, keep: string -> bool, fields: seq<string>, left: seq<string>,
                                        from: nat) returns (at: seq<nat>)
    requires from <= |fields| && left == KeptBases(t, keep, fields[from..])
    ensures Picks(t, fields, at, left)
    ensures forall j: nat :: j in at <==> KeptAt(t, keep, fields, from, j)
    decreases |fields| - from
  {
    if from == |fields| {
      at := [];
    } else {
      var b := t.base(fields[from]);
      assert fields[from..][1..] == fields[from + 1..];
      var rest := KeptBases(t, keep, fields[from + 1..]);
      var later := FieldsPicked(t, keep, fields, rest, from + 1);
      forall i | 0 <= i < |later| ensures from < later[i] { assert later[i] in later; }
      PicksCons(t, fields, later, rest, from);
      at := if b != "" && keep(b) then [from] + later else later;
      hide Picks;
      forall j: nat ensures j in at <==> KeptAt(t, keep, fields, from, j) {
        assert j in later <==> KeptAt(t, keep, fields, from + 1, j);
      }
    }
  }

  /** The non-empty bases that are to be kept. */
  function KeptBases(t: Text, keep: string -> bool, fields: seq<string>): seq<string> {
    if fields == [] then []
    else
      var b := t.base(fields[0]);
      (if b != "" && keep(b) then [b] else []) + KeptBases(t, keep, fields[1..])
  }

  lemma {:induction false} SanitizeKeeps(t: Text, fields: seq<string>)
    ensures Sanitize(t, fields) == KeptBases(t, Anything(), fields)
  {
    if fields != [] {
      SanitizeKeeps(t, fields[1..]);
    }
  }

  lemma {:induction false} KnownConcat(t: Text, known: set<string>, a: seq<string>, b: seq<string>)
    ensures Known(t, known, a + b) == Known(t, known, a) + Known(t, known, b)
  {
    if a == [] {
      assert a + b == b;
    } else {
      assert (a + b)[1..] == a[1..] + b;
      KnownConcat(t, known, a[1..], b);
    }
  }

  lemma {:induction false} KnownKeeps(t: Text, known: set<string>, fields: seq<string>)
    ensures Known(t, known, Sanitize(t, fields)) == KeptBases(t, IsKnown(t, known), fields)
  {
    if fields != [] {
      var b := t.base(fields[0]);
      KnownKeeps(t, known, fields[1..]);
      KnownConcat(t, known, if b == "" then [] else [b], Sanitize(t, fields[1..]));
    }
  }

  lemma {:induction false} FieldsRepaired(t: Text, kb: Kb, name: string, fields: seq<string>)
    requires name in kb.fieldsOf && fields != []
    ensures FieldsKept(t, kb.fieldsOf[name], fields, FixFields(t, kb, name, fields))
  {
    hide Picks, Sanitize, Known, KeptBases, KeptAt, StaysAt;
    var known := kb.fieldsOf[name];
    SanitizeKeeps(t, fields);
    KnownKeeps(t, known, fields);
    assert fields[0..] == fields;
    var some := FieldsPicked(t, IsKnown(t, known), fields, Known(t, known, Sanitize(t, fields)), 0);
    var all := FieldsPicked(t, Anything(), fields, Sanitize(t, fields), 0);
    StaysWhich(t, known, fields, some);
    var at := if some == [] then all else some;
    assert some == [] <==> Known(t, known, Sanitize(t, fields)) == [] by { PicksLength(t, fields, some); }
    assert forall j: nat :: j in at <==> StaysAt(t, known, fields, j);
  }

  lemma PicksLength(t: Text, fields: seq<string>, at: seq<nat>)
    ensures forall left :: Picks(t, fields, at, left) ==> |left| == |at|
  {
  }

  /** If some field is known those stay, and else all. */
  lemma {:induction false} StaysWhich(t: Text, known: set<string>, fields: seq<string>, some: seq<nat>)
    requires forall j: nat :: j in some <==> KeptAt(t, IsKnown(t, known), fields, 0, j)
    ensures forall j: nat :: StaysAt(t, known, fields, j) <==>
              if some == [] then KeptAt(t, Anything(), fields, 0, j)
              else KeptAt(t, IsKnown(t, known), fields, 0, j)
  {
    if some == [] {
      forall i | 0 <= i < |fields| && t.base(fields[i]) != "" ensures t.upper(t.base(fields[i])) !in known {
        assert !KeptAt(t, IsKnown(t, known), fields, 0, i);
      }
    } else {
      assert some[0] in some;
      assert !NoneIsKnown(t, known, fields);
    }
  }

  lemma {:induction false} NodeRepaired(t: Text, kb: Kb, n: PlanNode)
    ensures Repaired(t, kb, n, FixNode(t, kb, n))
    decreases n, 0
  {
    hide FieldsKept, FixFields;
    var name := t.upper(n.layer);
    if name in kb.fieldsOf && n.fields != [] {
      FieldsRepaired(t, kb, name, n.fields);
    } else {
      FieldsUntouched(t, kb, name, n.fields);
    }
    NodesRepaired(t, kb, n.children);
  }

  lemma FieldsUntouched(t: Text, kb: Kb, name: string, fields: seq<string>)
    requires name !in kb.fieldsOf || fields == []
    ensures FixFields(t, kb, name, fields) == fields
  {
  }

  lemma {:induction false} NodesRepaired(t: Text, kb: Kb, ns: seq<PlanNode>)
    ensures AllRepaired(t, kb, ns, FixAll(t, kb, ns))
    decreases ns
  {
    if ns != [] {
      NodeRepaired(t, kb, ns[0]);
      NodesRepaired(t, kb, ns[1..]);
      assert FixAll(t, kb, ns)[1..] == FixAll(t, kb, ns[1..]);
    }
  }

  // ---- Whole plans ------------------------------------------------------------------------

  datatype Action = QueryAction | AnalyzeAction | LocateAction | OtherAction

  datatype Plan = Plan(action: Action, query: seq<PlanNode>, analyze: seq<PlanNode>, locate: seq<PlanNode>)

  /** The nodes of a locate plan are not touched themselves, only what is below them. */
  function FixChildren(t: Text, kb: Kb, ns: seq<PlanNode>): (r: seq<PlanNode>)
    ensures |r| == |ns|
    ensures forall i :: 0 <= i < |ns| ==> r[i] == ns[i].(children := FixAll(t, kb, ns[i].children))
  {
    if ns == [] then [] else [ns[0].(children := FixAll(t, kb, ns[0].children))] + FixChildren(t, kb, ns[1..])
  }

  function ValidatePlan(t: Text, kb: Kb, p: Plan): Plan {
    match p.action
    case QueryAction => p.(query := FixAll(t, kb, p.query))
    case AnalyzeAction => p.(analyze := FixAll(t, kb, p.analyze))
    case LocateAction => p.(locate := FixChildren(t, kb, p.locate))
    case OtherAction => p
  }

  lemma {:induction false} FixChildrenIdempotent(t: Text, kb: Kb, ns: seq<PlanNode>)
    requires t.Idempotent() && Coherent(kb)
    ensures FixChildren(t, kb, FixChildren(t, kb, ns)) == FixChildren(t, kb, ns)
  {
    hide FixAll, FixChildren;
    var once := FixChildren(t, kb, ns);
    forall i | 0 <= i < |once|
      ensures FixChildren(t, kb, once)[i] == once[i]
    {
      FixAllIdempotent(t, kb, ns[i].children);
    }
    assert FixChildren(t, kb, once) == once;
  }

  /** Validating a plan twice changes nothing more, at any nesting depth. */
  lemma {:induction false} ValidateIdempotent(t: Text, layers: seq<Layer>, p: Plan)
    requires t.Idempotent()
    ensures var kb := Tables(t, layers);
            ValidatePlan(t, kb, ValidatePlan(t, kb, p)) == ValidatePlan(t, kb, p)
  {
    var kb := Tables(t, layers);
    TablesCoherent(t, layers);
    FixAllIdempotent(t, kb, p.query);
    FixAllIdempotent(t, kb, p.analyze);
    FixChildrenIdempotent(t, kb, p.locate);
    hide Tables, FixAll, FixChildren;
  }

  ghost predicate PlanCorrected(t: Text, kb: Kb, p: Plan) {
    match p.action
    case QueryAction => AllCorrected(t, kb, p.query)
    case AnalyzeAction => AllCorrected(t, kb, p.analyze)
    case LocateAction => forall i :: 0 <= i < |p.locate| ==> AllCorrected(t, kb, p.locate[i].children)
    case OtherAction => true
  }

  /**
   `q` is `p` repaired: all the nodes of the selected list of a query or an analysis, and what is below the nodes
   of a search for places. Nothing else changes.
   */
  ghost predicate PlanRepaired(t: Text, kb: Kb, p: Plan, q: Plan) {
    && q.action == p.action
    && (if p.action == QueryAction then AllRepaired(t, kb, p.query, q.query) else q.query == p.query)
    && (if p.action == AnalyzeAction then AllRepaired(t, kb, p.analyze, q.analyze) else q.analyze == p.analyze)
    && |q.locate| == |p.locate|
    && forall i :: 0 <= i < |p.locate| ==>
         if p.action == LocateAction
         then q.locate[i] == p.locate[i].(children := q.locate[i].children)
              && AllRepaired(t, kb, p.locate[i].children, q.locate[i].children)
         else q.locate[i] == p.locate[i]
  }

  /** Entry by entry, what validation leaves of a plan follows from what was there and from the knowledge base. */
  lemma {:induction false} ValidateRepairs(t: Text, layers: seq<Layer>, p: Plan)
    ensures PlanRepaired(t, Tables(t, layers), p, ValidatePlan(t, Tables(t, layers), p))
  {
    hide FixAll, AllRepaired, Tables;
    var kb := Tables(t, layers);
    NodesRepaired(t, kb, p.query);
    NodesRepaired(t, kb, p.analyze);
    forall i | 0 <= i < |p.locate|
      ensures AllRepaired(t, kb, p.locate[i].children, FixAll(t, kb, p.locate[i].children))
    {
      NodesRepaired(t, kb, p.locate[i].children);
    }
  }

  /** Afterwards every visited node of a known layer has a known URL and clean fields, made from what it had. */
  lemma {:induction false} ValidateCorrects(t: Text, layers: seq<Layer>, p: Plan)
    requires t.Idempotent() && UrlsNonEmpty(Tables(t, layers))
    ensures PlanCorrected(t, Tables(t, layers), ValidatePlan(t, Tables(t, layers), p))
    ensures PlanRepaired(t, Tables(t, layers), p, ValidatePlan(t, Tables(t, layers), p))
  {
    hide PlanRepaired;
    ValidateRepairs(t, layers, p);
    var kb := Tables(t, layers);
    TablesCoherent(t, layers);
    FixAllCorrects(t, kb, p.query);
    FixAllCorrects(t, kb, p.analyze);
    forall i | 0 <= i < |p.locate|
      ensures AllCorrected(t, kb, FixChildren(t, kb, p.locate)[i].children)
    {
      FixAllCorrects(t, kb, p.locate[i].children);
    }
  }

  // ---- Whole plans in place ---------------------------------------------------------------

  /** Trees of dictionaries that share nothing. */
  ghost predicate Forest(ns: seq<PlanDict>) {
    && (forall i :: 0 <= i < |ns| ==> ns[i].IsTree())
    && forall i, j :: 0 <= i < j < |ns| ==> ns[i].repr !! ns[j].repr
  }

  /** Everything the trees are made of. */
  ghost function Objects(ns: seq<PlanDict>): set<object> {
    set i, o | 0 <= i < |ns| && o in ns[i].repr :: o
  }

  /** The plan nodes that the dictionaries stand for. */
  ghost function Views(ns: seq<PlanDict>): (r: seq<PlanNode>)
    requires Forest(ns)
    reads Objects(ns)
    ensures |r| == |ns| && forall i :: 0 <= i < |r| ==> r[i] == ns[i].View()
  {
    if ns == [] then [] else [ns[0].View()] + Views(ns[1..])
  }

  lemma {:induction false} ForestParts(a: seq<PlanDict>, b: seq<PlanDict>)
    requires Forest(a + b)
    ensures Forest(a) && Forest(b) && Objects(a) !! Objects(b) && Objects(a + b) == Objects(a) + Objects(b)
  {
    hide PlanDict.IsTree;
    assert forall i :: 0 <= i < |a| ==> (a + b)[i] == a[i];
    assert forall i :: 0 <= i < |b| ==> (a + b)[|a| + i] == b[i];
  }

  lemma {:induction false} TreesApart(ns: seq<PlanDict>, i: nat)
    requires Forest(ns) && i < |ns|
    ensures forall j :: 0 <= j < |ns| ==> ns[j].IsTree()
    ensures ns[i].repr <= Objects(ns) && forall j :: 0 <= j < |ns| && j != i ==> ns[j].repr !! ns[i].repr
  {
    hide PlanDict.IsTree;
  }

  /** Node `i` is fixed, the others are left alone. */
  method FixAt(t: Text, kb: Kb, ns: seq<PlanDict>, i: nat)
    requires Forest(ns) && i < |ns|
    modifies Objects(ns)
    ensures Views(ns) == old(Views(ns))[i := FixNode(t, kb, old(Views(ns))[i])]
  {
    hide FixNode, PlanDict.View, PlanDict.IsTree, Views, Forest;
    ghost var before := Views(ns);
    TreesApart(ns, i);
    ns[i].Fix(t, kb);
    assert forall j :: 0 <= j < |ns| && j != i ==> ns[j].View() == before[j];
  }

  /** The loop over the nodes of a query or an analysis. */
  method FixList(t: Text, kb: Kb, ns: seq<PlanDict>)
    requires Forest(ns)
    modifies Objects(ns)
    ensures Views(ns) == FixAll(t, kb, old(Views(ns)))
  {
    hide FixNode, FixAll, Forest, FixedUpTo, Views;
    ghost var views := Views(ns);
    FixedUpToEnds(t, kb, views);
    for i := 0 to |ns|
      invariant Views(ns) == FixedUpTo(t, kb, views, i)
    {
      FixedUpToNext(t, kb, views, i);
      FixAt(t, kb, ns, i);
    }
  }

  /** Only what is below node `i` is fixed. */
  method FixBelow(t: Text, kb: Kb, ns: seq<PlanDict>, i: nat)
    requires Forest(ns) && i < |ns|
    modifies Objects(ns)
    ensures var n := old(Views(ns))[i];
            Views(ns) == old(Views(ns))[i := n.(children := FixAll(t, kb, n.children))]
  {
    hide FixAll, PlanDict.View, PlanDict.IsTree, Views, Forest;
    ghost var before := Views(ns);
    TreesApart(ns, i);
    ns[i].FixDescendants(t, kb);
    assert forall j :: 0 <= j < |ns| && j != i ==> ns[j].View() == before[j];
  }

  /** The loop over the nodes of a search for places. */
  method FixBelowList(t: Text, kb: Kb, ns: seq<PlanDict>)
    requires Forest(ns)
    modifies Objects(ns)
    ensures Views(ns) == FixChildren(t, kb, old(Views(ns)))
  {
    hide FixAll, Forest, Views, FixChildren;
    ghost var views := Views(ns);
    for i := 0 to |ns|
      invariant |Views(ns)| == |ns| == |views|
      invariant forall j :: 0 <= j < i ==> Views(ns)[j] == FixChildren(t, kb, views)[j]
      invariant forall j :: i <= j < |ns| ==> Views(ns)[j] == views[j]
    {
      FixBelow(t, kb, ns, i);
    }
  }

  /** The plan dictionary with its node lists. */
  class PlanDoc {
    const action: Action
    const query: seq<PlanDict>
    const analyze: seq<PlanDict>
    const locate: seq<PlanDict>

    constructor (action: Action, query: seq<PlanDict>, analyze: seq<PlanDict>, locate: seq<PlanDict>)
      requires Forest(query + analyze + locate)
      ensures Separate()
      ensures this.action == action && this.query == query && this.analyze == analyze && this.locate == locate
    {
      this.action, this.query, this.analyze, this.locate := action, query, analyze, locate;
    }

    /** No dictionary appears in two places. */
    ghost predicate Separate() {
      Forest(query + analyze + locate)
    }

    ghost function View(): Plan
      requires Separate()
      reads Objects(query), Objects(analyze), Objects(locate)
    {
      ListsApart();
      Plan(action, Views(query), Views(analyze), Views(locate))
    }

    lemma ListsApart()
      requires Separate()
      ensures Forest(query) && Forest(analyze) && Forest(locate)
      ensures Objects(query) !! Objects(analyze) && Objects(query) !! Objects(locate)
      ensures Objects(analyze) !! Objects(locate)
    {
      hide Forest;
      ForestParts(query + analyze, locate);
      ForestParts(query, analyze);
    }

    /**
     The guardrail on the plan itself: the dictionaries come to stand for the validated plan, which is the plan as
     it was with every entry repaired. A second round would change nothing, and every visited node of a known
     layer is corrected.
     */
    method Validate(t: Text, layers: seq<Layer>)
      requires Separate()
      modifies Objects(query), Objects(analyze), Objects(locate)
      ensures View() == ValidatePlan(t, Tables(t, layers), old(View()))
      ensures PlanRepaired(t, Tables(t, layers), old(View()), View())
      ensures t.Idempotent() ==> ValidatePlan(t, Tables(t, layers), View()) == View()
      ensures t.Idempotent() && UrlsNonEmpty(Tables(t, layers)) ==> PlanCorrected(t, Tables(t, layers), View())
    {
      hide FixAll, FixChildren, Tables, Forest, Views;
      var kb := BuildTables(t, layers);
      ListsApart();
      ghost var before := View();
      match action {
        case QueryAction => FixList(t, kb, query);
        case AnalyzeAction => FixList(t, kb, analyze);
        case LocateAction => FixBelowList(t, kb, locate);
        case OtherAction =>
      }
      ValidateRepairs(t, layers, before);
      if t.Idempotent() {
        ValidateIdempotent(t, layers, before);
        if UrlsNonEmpty(kb) {
          ValidateCorrects(t, layers, before);
        }
      }
    }
  }
}
