/** `ProductsImportJobConfiguration`: the product import job. It gets or creates
    the "b2b" customer group, stores the queried product types, then imports the
    product drafts chunk by chunk, keeping only useful ones. The commercetools
    platform is an in-memory store, and every request sent to it is logged in
    `issued`. */
module ProductsImportJobConfiguration {
  import opened Wrappers
  import opened JavaStrings
  import opened ProductModel

  const B2bCustomerGroupStepContextKey: string := "b2bCustomerGroupId"
  const ProductTypesStepContextKey: string := "productTypes"
  const B2bCustomerGroupName: string := "b2b"
  /** `Locale.ENGLISH` and `Locale.GERMAN` as locale tags. */
  const English: string := "en"
  const German: string := "de"
  const MaxPrefix: string := "#max"

  // ---------------------------------------------------------------- the filter processor

  /** `isUseful`: the English name is present and non-empty, and the German name (or
      `""` when there is none) does not start with `#max`. */
  predicate IsUseful(item: ProductDraft) {
    var english := Lookup(item.name, English);
    var german := Lookup(item.name, German);
    && !(english.None? || english.value == [])
    && !StartsWith(if german.Some? then german.value else "", MaxPrefix)
  }

  /** The usefulness test in terms of the two names. */
  lemma IsUsefulExactly(item: ProductDraft)
    ensures IsUseful(item) <==>
      && English in item.name && |item.name[English]| > 0
      && !(German in item.name && |item.name[German]| >= 4 && item.name[German][..4] == "#max")
  {
  }

  /** A product without a German name is not rejected on that ground. */
  lemma UsefulWithoutGerman(item: ProductDraft)
    requires German !in item.name
    ensures IsUseful(item) <==> English in item.name && item.name[English] != []
  {
  }

  /** The anonymous `ItemProcessor`: the same item when it is useful, `null` otherwise. */
  function ProcessItem(item: ProductDraft): (r: Option<ProductDraft>)
    ensures r.Some? <==> IsUseful(item)
    ensures r.Some? ==> r.value == item
  {
    if IsUseful(item) then Some(item) else None
  }

  /** The items of a chunk that the filter processor passes on, in order. */
  function FilterUseful(items: seq<ProductDraft>): (r: seq<ProductDraft>)
    ensures |r| <= |items|
  {
    if items == [] then []
    else
      var rest := FilterUseful(items[1..]);
      match ProcessItem(items[0])
      case Some(x) => [x] + rest
      case None => rest
  }

  /** The filter passes on exactly the useful items. */
  lemma {:induction false} FilterUsefulMembers(items: seq<ProductDraft>)
    ensures forall x :: x in FilterUseful(items) <==> x in items && IsUseful(x)
    decreases |items|
  {
    if items != [] {
      FilterUsefulMembers(items[1..]);
      assert forall x :: x in items <==> x == items[0] || x in items[1..] by {
        assert items == [items[0]] + items[1..];
      }
    }
  }

  /** Filtering chunk by chunk is filtering the whole stream. */
  lemma {:induction false} FilterUsefulAppend(xs: seq<ProductDraft>, ys: seq<ProductDraft>)
    ensures FilterUseful(xs + ys) == FilterUseful(xs) + FilterUseful(ys)
    decreases |xs|
  {
    if xs == [] {
      assert xs + ys == ys;
    } else {
      assert (xs + ys)[0] == xs[0];
      assert (xs + ys)[1..] == xs[1..] + ys;
      FilterUsefulAppend(xs[1..], ys);
    }
  }

  // ---------------------------------------------------------------- the remote store

  datatype CustomerGroup = CustomerGroup(id: string, name: string)

  /** The requests the job sends to the platform. */
  datatype Command =
    | QueryCustomerGroupByName(name: string)
    | CreateCustomerGroup(groupName: string)
    | QueryAllProductTypes
    | CreateProduct(draft: ProductDraft)

  /** What the tasklets put in an execution context. */
  datatype ContextValue = IdValue(id: string) | ProductTypeList(types: seq<ProductType>)

  /** `CustomerGroupQuery.of().byName(name)` followed by `head()`: the first group
      with that name, if any. */
  function FirstNamed(groups: seq<CustomerGroup>, name: string): (r: Option<CustomerGroup>)
    ensures r.None? <==> forall k :: 0 <= k < |groups| ==> groups[k].name != name
    ensures r.Some? ==> exists k :: 0 <= k < |groups| && groups[k] == r.value && r.value.name == name
                                    && forall j :: 0 <= j < k ==> groups[j].name != name
  {
    if groups == [] then None
    else if groups[0].name == name then Some(groups[0])
    else
      var r := FirstNamed(groups[1..], name);
      assert forall k :: 1 <= k < |groups| ==> groups[k] == groups[1..][k - 1];
      r
  }

  /** The customer groups and the stored id after the get-or-create, when a new
      group would get `newId`. */
  datatype GroupOutcome = GroupOutcome(groups: seq<CustomerGroup>, id: string)

  /** Get-or-create of the "b2b" customer group. */
  function GetOrCreate(groups: seq<CustomerGroup>, newId: string): GroupOutcome {
    match FirstNamed(groups, B2bCustomerGroupName)
    case Some(g) => GroupOutcome(groups, g.id)
    case None => GroupOutcome(groups + [CustomerGroup(newId, B2bCustomerGroupName)], newId)
  }

  /** After the get-or-create a "b2b" group exists: the stored id is the id of the
      first one, and the groups are unchanged when one existed before, or gained
      exactly the new group otherwise. */
  lemma GetOrCreateFindsGroup(groups: seq<CustomerGroup>, newId: string)
    ensures var o := GetOrCreate(groups, newId);
            && FirstNamed(o.groups, B2bCustomerGroupName).Some?
            && FirstNamed(o.groups, B2bCustomerGroupName).value.id == o.id
            && (FirstNamed(groups, B2bCustomerGroupName).Some? ==> o.groups == groups)
            && (FirstNamed(groups, B2bCustomerGroupName).None? ==> o.groups == groups + [CustomerGroup(newId, B2bCustomerGroupName)])
  {
    var o := GetOrCreate(groups, newId);
    if FirstNamed(groups, B2bCustomerGroupName).None? {
      FirstNamedAfter(groups, CustomerGroup(newId, B2bCustomerGroupName));
    }
  }

  /** A group appended behind groups of other names is the first of its name. */
  lemma {:induction false} FirstNamedAfter(groups: seq<CustomerGroup>, g: CustomerGroup)
    requires forall k :: 0 <= k < |groups| ==> groups[k].name != g.name
    ensures FirstNamed(groups + [g], g.name) == Some(g)
    decreases |groups|
  {
    if groups == [] {
      assert groups + [g] == [g];
    } else {
      assert (groups + [g])[1..] == groups[1..] + [g];
      FirstNamedAfter(groups[1..], g);
    }
  }

  /** Running the get-or-create again creates nothing and stores the same id. */
  lemma GetOrCreateIdempotent(groups: seq<CustomerGroup>, newId: string, otherId: string)
    ensures GetOrCreate(GetOrCreate(groups, newId).groups, otherId) == GetOrCreate(groups, newId)
  {
    GetOrCreateFindsGroup(groups, newId);
  }

  /** The requests of the get-or-create: the query, then a create only when no group
      was found. */
  function GroupCommands(groups: seq<CustomerGroup>): seq<Command> {
    [QueryCustomerGroupByName(B2bCustomerGroupName)]
      + (if FirstNamed(groups, B2bCustomerGroupName).None? then [CreateCustomerGroup(B2bCustomerGroupName)] else [])
  }

  /** `ExecutionContextPromotionListener`: each listed key present in the step
      context is copied into the job context. */
  function Promoted(job: map<string, ContextValue>, step: map<string, ContextValue>, keys: seq<string>): map<string, ContextValue>
    decreases |keys|
  {
    if keys == [] then job
    else
      var before := Promoted(job, step, keys[..|keys| - 1]);
      var k := keys[|keys| - 1];
      if k in step then before[k := step[k]] else before
  }

  /** Promotion copies the listed keys that the step holds and leaves every other
      entry of the job context as it was. */
  lemma {:induction false} PromotedKeys(job: map<string, ContextValue>, step: map<string, ContextValue>, keys: seq<string>)
    ensures forall x :: x in keys && x in step ==> x in Promoted(job, step, keys) && Promoted(job, step, keys)[x] == step[x]
    ensures forall x :: x !in keys || x !in step ==>
              (x in Promoted(job, step, keys) <==> x in job) && (x in job ==> Promoted(job, step, keys)[x] == job[x])
    decreases |keys|
  {
    if keys != [] {
      var init := keys[..|keys| - 1];
      PromotedKeys(job, step, init);
      assert forall x :: x in keys <==> x in init || x == keys[|keys| - 1];
    }
  }

  /** Promoting a single key `k` sets `k` to the step's value when the step holds
      it, and changes nothing else. */
  lemma PromotedOneKey(job: map<string, ContextValue>, step: map<string, ContextValue>, k: string)
    ensures Promoted(job, step, [k]) == if k in step then job[k := step[k]] else job
  {
    assert [k][..0] == [];
  }

  /** The requests of one chunk's writer: one create per item, in chunk order. */
  function CreateCommands(items: seq<ProductDraft>): (r: seq<Command>)
    ensures |r| == |items|
  {
    if items == [] then [] else CreateCommands(items[..|items| - 1]) + [CreateProduct(items[|items| - 1])]
  }

  /** One create per item, in item order. */
  lemma {:induction false} CreateCommandsPerItem(items: seq<ProductDraft>)
    ensures forall k :: 0 <= k < |items| ==> CreateCommands(items)[k] == CreateProduct(items[k])
    decreases |items|
  {
    if items != [] {
      CreateCommandsPerItem(items[..|items| - 1]);
    }
  }

  lemma {:induction false} CreateCommandsAppend(xs: seq<ProductDraft>, ys: seq<ProductDraft>)
    ensures CreateCommands(xs + ys) == CreateCommands(xs) + CreateCommands(ys)
  {
    var l, r := CreateCommands(xs + ys), CreateCommands(xs) + CreateCommands(ys);
    CreateCommandsPerItem(xs + ys);
    CreateCommandsPerItem(xs);
    CreateCommandsPerItem(ys);
    assert |l| == |r|;
    forall k | 0 <= k < |l| ensures l[k] == r[k] {
      if k < |xs| {
        assert (xs + ys)[k] == xs[k];
      } else {
        assert (xs + ys)[k] == ys[k - |xs|];
      }
    }
  }

  /** The items of a chunk that the platform accepts and stores. */
  function Accepted(items: seq<ProductDraft>, accepted: ProductDraft -> bool): (r: seq<ProductDraft>)
    ensures |r| <= |items|
  {
    if items == [] then []
    else
      var last := items[|items| - 1];
      Accepted(items[..|items| - 1], accepted) + (if accepted(last) then [last] else [])
  }

  /** The platform stores exactly the accepted items. */
  lemma {:induction false} AcceptedMembers(items: seq<ProductDraft>, accepted: ProductDraft -> bool)
    ensures forall x :: x in Accepted(items, accepted) <==> x in items && accepted(x)
    decreases |items|
  {
    if items != [] {
      var init := items[..|items| - 1];
      AcceptedMembers(init, accepted);
      assert forall x :: x in items <==> x in init || x == items[|items| - 1] by {
        assert items == init + [items[|items| - 1]];
      }
    }
  }

  /** Does the platform accept every item? */
  predicate AllAccepted(items: seq<ProductDraft>, accepted: ProductDraft -> bool) {
    forall k :: 0 <= k < |items| ==> accepted(items[k])
  }

  lemma {:induction false} AcceptedAppend(xs: seq<ProductDraft>, ys: seq<ProductDraft>, accepted: ProductDraft -> bool)
    ensures Accepted(xs + ys, accepted) == Accepted(xs, accepted) + Accepted(ys, accepted)
    decreases |ys|
  {
    if ys == [] {
      assert xs + ys == xs;
    } else {
      var init := ys[..|ys| - 1];
      assert (xs + ys)[..|xs + ys| - 1] == xs + init;
      assert (xs + ys)[|xs + ys| - 1] == ys[|ys| - 1];
      AcceptedAppend(xs, init, accepted);
    }
  }

  /** What the import step leaves behind: the requests sent, the products the
      platform stored, and whether the step completed. */
  datatype ImportOutcome = ImportOutcome(commands: seq<Command>, created: seq<ProductDraft>, ok: bool)

  /** The import step over its chunks: each chunk is filtered, then written; a chunk
      with a rejected create fails the step and no later chunk is written. */
  function ImportRun(chunks: seq<seq<ProductDraft>>, accepted: ProductDraft -> bool): ImportOutcome
    decreases |chunks|
  {
    if chunks == [] then ImportOutcome([], [], true)
    else
      var useful := FilterUseful(chunks[0]);
      var here := ImportOutcome(CreateCommands(useful), Accepted(useful, accepted), AllAccepted(useful, accepted));
      if !here.ok then here
      else
        var rest := ImportRun(chunks[1..], accepted);
        ImportOutcome(here.commands + rest.commands, here.created + rest.created, rest.ok)
  }

  /** All the chunks, one after the other. */
  function Flatten(chunks: seq<seq<ProductDraft>>): seq<ProductDraft> {
    if chunks == [] then [] else chunks[0] + Flatten(chunks[1..])
  }

  /** The import step's requests are one create per useful product, in input order,
      up to the failing chunk: a prefix of them, and all of them when the step
      completes. */
  lemma {:induction false} ImportRunCreatesUseful(chunks: seq<seq<ProductDraft>>, accepted: ProductDraft -> bool)
    ensures ImportRun(chunks, accepted).commands <= CreateCommands(FilterUseful(Flatten(chunks)))
    ensures ImportRun(chunks, accepted).ok ==> ImportRun(chunks, accepted).commands == CreateCommands(FilterUseful(Flatten(chunks)))
    decreases |chunks|
  {
    if chunks != [] {
      var useful, later := FilterUseful(chunks[0]), FilterUseful(Flatten(chunks[1..]));
      FilterUsefulAppend(chunks[0], Flatten(chunks[1..]));
      CreateCommandsAppend(useful, later);
      var head, all := CreateCommands(useful), CreateCommands(later);
      assert CreateCommands(FilterUseful(Flatten(chunks))) == head + all;
      ImportRunCreatesUseful(chunks[1..], accepted);
      var rest := ImportRun(chunks[1..], accepted).commands;
      if AllAccepted(useful, accepted) {
        assert ImportRun(chunks, accepted).commands == head + rest;
        PrefixPrepend(head, rest, all);
      } else {
        assert ImportRun(chunks, accepted).commands == head;
        PrefixPrepend(head, [], all);
        assert head + [] == head;
      }
    }
  }

  /** A prefix stays a prefix behind a common head. */
  lemma PrefixPrepend<T>(head: seq<T>, xs: seq<T>, ys: seq<T>)
    requires xs <= ys
    ensures head + xs <= head + ys
  {
    assert (head + ys)[..|head + xs|] == head + xs;
  }

  /** Only useful products are created, and the step completes exactly when the
      platform accepts every useful product. */
  lemma {:induction false} ImportRunOutcome(chunks: seq<seq<ProductDraft>>, accepted: ProductDraft -> bool)
    ensures forall x :: x in ImportRun(chunks, accepted).created ==> IsUseful(x) && accepted(x)
    ensures ImportRun(chunks, accepted).ok <==> forall x :: x in FilterUseful(Flatten(chunks)) ==> accepted(x)
    decreases |chunks|
  {
    if chunks != [] {
      var useful := FilterUseful(chunks[0]);
      FilterUsefulAppend(chunks[0], Flatten(chunks[1..]));
      ImportRunOutcome(chunks[1..], accepted);
      FilterUsefulMembers(chunks[0]);
      AcceptedMembers(useful, accepted);
      assert AllAccepted(useful, accepted) <==> forall x :: x in useful ==> accepted(x) by {
        assert forall x :: x in useful ==> exists k :: 0 <= k < |useful| && useful[k] == x;
      }
    }
  }

  /** The import step over a completed prefix of chunks followed by one more. */
  lemma {:induction false} ImportRunSnoc(chunks: seq<seq<ProductDraft>>, c: seq<ProductDraft>, accepted: ProductDraft -> bool)
    requires ImportRun(chunks, accepted).ok
    ensures var before, last := ImportRun(chunks, accepted), ImportRun([c], accepted);
            ImportRun(chunks + [c], accepted)
              == ImportOutcome(before.commands + last.commands, before.created + last.created, last.ok)
    decreases |chunks|
  {
    var last := ImportRun([c], accepted);
    if chunks == [] {
      assert chunks + [c] == [c];
      assert [] + last.commands == last.commands && [] + last.created == last.created;
    } else {
      ImportRunSnoc(chunks[1..], c, accepted);
      ImportRunCons(chunks, c, accepted);
    }
  }

  /** The step of `ImportRunSnoc`: the first chunk, then the rest with `c` behind it. */
  lemma ImportRunCons(chunks: seq<seq<ProductDraft>>, c: seq<ProductDraft>, accepted: ProductDraft -> bool)
    requires chunks != [] && ImportRun(chunks, accepted).ok
    requires var before, last := ImportRun(chunks[1..], accepted), ImportRun([c], accepted);
             ImportRun(chunks[1..] + [c], accepted)
               == ImportOutcome(before.commands + last.commands, before.created + last.created, last.ok)
    ensures var before, last := ImportRun(chunks, accepted), ImportRun([c], accepted);
            ImportRun(chunks + [c], accepted)
              == ImportOutcome(before.commands + last.commands, before.created + last.created, last.ok)
  {
    var xs := chunks + [c];
    assert xs[0] == chunks[0];
    assert xs[1..] == chunks[1..] + [c];
    var useful := FilterUseful(chunks[0]);
    var tail, last := ImportRun(chunks[1..], accepted), ImportRun([c], accepted);
    var cs, ps := CreateCommands(useful), Accepted(useful, accepted);
    assert AllAccepted(useful, accepted);
    assert ImportRun(chunks, accepted) == ImportOutcome(cs + tail.commands, ps + tail.created, tail.ok);
    assert ImportRun(xs, accepted) == ImportOutcome(cs + (tail.commands + last.commands), ps + (tail.created + last.created), last.ok);
    SeqAssoc(cs, tail.commands, last.commands);
    SeqAssoc(ps, tail.created, last.created);
  }

  lemma SeqAssoc<T>(a: seq<T>, b: seq<T>, c: seq<T>)
    ensures a + (b + c) == (a + b) + c
  {
  }

  /** The import step over a single chunk. */
  lemma ImportRunSingle(c: seq<ProductDraft>, accepted: ProductDraft -> bool)
    ensures var useful := FilterUseful(c);
            ImportRun([c], accepted) == ImportOutcome(CreateCommands(useful), Accepted(useful, accepted), AllAccepted(useful, accepted))
  {
    assert [c][0] == c && [c][1..] == [];
    var useful := FilterUseful(c);
    assert CreateCommands(useful) + [] == CreateCommands(useful);
    assert Accepted(useful, accepted) + [] == Accepted(useful, accepted);
  }

  /** One more chunk after a completed prefix: its creates and products follow
      those of the prefix, and it decides whether the step is still running. */
  lemma ImportRunNext(chunks: seq<seq<ProductDraft>>, i: nat, accepted: ProductDraft -> bool)
    requires i < |chunks| && ImportRun(chunks[..i], accepted).ok
    ensures var before, useful := ImportRun(chunks[..i], accepted), FilterUseful(chunks[i]);
            ImportRun(chunks[..i + 1], accepted)
              == ImportOutcome(before.commands + CreateCommands(useful), before.created + Accepted(useful, accepted),
                               AllAccepted(useful, accepted))
  {
    ImportRunSnoc(chunks[..i], chunks[i], accepted);
    ImportRunSingle(chunks[i], accepted);
    assert chunks[..i + 1] == chunks[..i] + [chunks[i]];
  }

  /** The import step over all chunks is its run over the chunks written so far,
      once they are all written or one has failed. */
  lemma ImportRunPrefix(chunks: seq<seq<ProductDraft>>, i: nat, accepted: ProductDraft -> bool)
    requires i <= |chunks| && (i == |chunks| || !ImportRun(chunks[..i], accepted).ok)
    ensures ImportRun(chunks, accepted) == ImportRun(chunks[..i], accepted)
  {
    if i == |chunks| {
      assert chunks[..i] == chunks;
    } else {
      ImportRunStopsAt(chunks, i, accepted);
    }
  }

  /** The step stops at the `i`-th chunk when the first `i` chunks fail it. */
  lemma ImportRunStopsAt(chunks: seq<seq<ProductDraft>>, i: nat, accepted: ProductDraft -> bool)
    requires i < |chunks| && !ImportRun(chunks[..i], accepted).ok
    ensures ImportRun(chunks, accepted) == ImportRun(chunks[..i], accepted)
  {
    var done, left := chunks[..i], chunks[i..];
    assert done + left == chunks;
    ImportRunStops(done, left, accepted);
  }

  /** Nothing is written after a failing chunk. */
  lemma {:induction false} ImportRunStops(chunks: seq<seq<ProductDraft>>, rest: seq<seq<ProductDraft>>, accepted: ProductDraft -> bool)
    requires !ImportRun(chunks, accepted).ok
    ensures ImportRun(chunks + rest, accepted) == ImportRun(chunks, accepted)
    decreases |chunks|
  {
    assert chunks != [];
    assert (chunks + rest)[0] == chunks[0];
    assert (chunks + rest)[1..] == chunks[1..] + rest;
    if AllAccepted(FilterUseful(chunks[0]), accepted) {
      ImportRunStops(chunks[1..], rest, accepted);
    }
  }

  // ---------------------------------------------------------------- the job

  /** The job together with the platform it talks to: the platform's customer
      groups, product types and products, the log of requests, and the execution
      contexts of the running step and of the job. */
  class ProductsImportJob {
    var customerGroups: seq<CustomerGroup>
    var productTypes: seq<ProductType>
    var products: seq<ProductDraft>
    var issued: seq<Command>
    var stepContext: map<string, ContextValue>
    var jobContext: map<string, ContextValue>

    /** A job that has not run yet, against a platform with the given groups and
        product types. */
    constructor(groups: seq<CustomerGroup>, types: seq<ProductType>)
      ensures customerGroups == groups && productTypes == types
      ensures products == [] && issued == [] && stepContext == map[] && jobContext == map[]
    {
      customerGroups := groups;
      productTypes := types;
      products := [];
      issued := [];
      stepContext := map[];
      jobContext := map[];
    }

    /** `saveCustomerGroupTasklet`: query the "b2b" group by name; create it (the
        platform assigns `newId`) when none exists; put its id in the step context. */
    method SaveCustomerGroupTasklet(newId: string)
      modifies this
      ensures customerGroups == GetOrCreate(old(customerGroups), newId).groups
      ensures stepContext == old(stepContext)[B2bCustomerGroupStepContextKey := IdValue(GetOrCreate(old(customerGroups), newId).id)]
      ensures issued == old(issued) + GroupCommands(old(customerGroups))
      ensures productTypes == old(productTypes) && products == old(products) && jobContext == old(jobContext)
    {
      issued := issued + [QueryCustomerGroupByName(B2bCustomerGroupName)];
      var found := FirstNamed(customerGroups, B2bCustomerGroupName);
      var id: string;
      if found.Some? {
        id := found.value.id;
      } else {
        issued := issued + [CreateCustomerGroup(B2bCustomerGroupName)];
        customerGroups := customerGroups + [CustomerGroup(newId, B2bCustomerGroupName)];
        id := newId;
      }
      stepContext := stepContext[B2bCustomerGroupStepContextKey := IdValue(id)];
    }

    /** `saveProductTypeTasklet`: query all product types and put the list in the
        step context. */
    method SaveProductTypeTasklet()
      modifies this
      ensures stepContext == old(stepContext)[ProductTypesStepContextKey := ProductTypeList(old(productTypes))]
      ensures issued == old(issued) + [QueryAllProductTypes]
      ensures customerGroups == old(customerGroups) && productTypes == old(productTypes)
      ensures products == old(products) && jobContext == old(jobContext)
    {
      issued := issued + [QueryAllProductTypes];
      stepContext := stepContext[ProductTypesStepContextKey := ProductTypeList(productTypes)];
    }

    /** The promotion listener after a step: copy the listed keys from the step
        context into the job context. */
    method Promote(keys: seq<string>)
      modifies this
      ensures jobContext == Promoted(old(jobContext), stepContext, keys)
      ensures stepContext == old(stepContext) && issued == old(issued)
      ensures customerGroups == old(customerGroups) && productTypes == old(productTypes) && products == old(products)
    {
      var i := 0;
      while i < |keys|
        invariant 0 <= i <= |keys|
        invariant jobContext == Promoted(old(jobContext), stepContext, keys[..i])
        invariant stepContext == old(stepContext) && issued == old(issued)
        invariant customerGroups == old(customerGroups) && productTypes == old(productTypes) && products == old(products)
      {
        assert keys[..i + 1][..i] == keys[..i];
        var k := keys[i];
        if k in stepContext {
          jobContext := jobContext[k := stepContext[k]];
        }
        i := i + 1;
      }
      assert keys[..i] == keys;
    }

    /** The `getOrCreateCustomerGroup` step: a fresh step context, the tasklet, and
        the promotion of `b2bCustomerGroupId` alone. */
    method GetOrCreateCustomerGroupStep(newId: string)
      modifies this
      ensures customerGroups == GetOrCreate(old(customerGroups), newId).groups
      ensures jobContext == old(jobContext)[B2bCustomerGroupStepContextKey := IdValue(GetOrCreate(old(customerGroups), newId).id)]
      ensures issued == old(issued) + GroupCommands(old(customerGroups))
      ensures productTypes == old(productTypes) && products == old(products)
      ensures stepContext == map[B2bCustomerGroupStepContextKey := IdValue(GetOrCreate(old(customerGroups), newId).id)]
    {
      stepContext := map[];
      SaveCustomerGroupTasklet(newId);
      Promote([B2bCustomerGroupStepContextKey]);
      PromotedOneKey(old(jobContext), stepContext, B2bCustomerGroupStepContextKey);
    }

    /** The `getProductTypesStep`: a fresh step context, the tasklet, and the
        promotion of `productTypes` alone. */
    method GetProductTypesStep()
      modifies this
      ensures jobContext == old(jobContext)[ProductTypesStepContextKey := ProductTypeList(old(productTypes))]
      ensures issued == old(issued) + [QueryAllProductTypes]
      ensures customerGroups == old(customerGroups) && productTypes == old(productTypes) && products == old(products)
      ensures stepContext == map[ProductTypesStepContextKey := ProductTypeList(old(productTypes))]
    {
      stepContext := map[];
      SaveProductTypeTasklet();
      Promote([ProductTypesStepContextKey]);
      PromotedOneKey(old(jobContext), stepContext, ProductTypesStepContextKey);
    }

    /** `productsWriter`: send one create per item, in chunk order, and only then
        wait for each answer in turn; the first rejected create fails the chunk.
        Whether the platform accepts a draft is `accepted`. */
    method Write(items: seq<ProductDraft>, accepted: ProductDraft -> bool) returns (ok: bool)
      modifies this
      ensures issued == old(issued) + CreateCommands(items)
      ensures products == old(products) + Accepted(items, accepted)
      ensures ok == AllAccepted(items, accepted)
      ensures customerGroups == old(customerGroups) && productTypes == old(productTypes)
      ensures stepContext == old(stepContext) && jobContext == old(jobContext)
    {
      var stages: seq<bool> := [];
      var i := 0;
      while i < |items|
        invariant 0 <= i <= |items|
        invariant issued == old(issued) + CreateCommands(items[..i])
        invariant products == old(products) + Accepted(items[..i], accepted)
        invariant |stages| == i && forall k :: 0 <= k < i ==> stages[k] == accepted(items[k])
        invariant customerGroups == old(customerGroups) && productTypes == old(productTypes)
        invariant stepContext == old(stepContext) && jobContext == old(jobContext)
      {
        assert items[..i + 1][..i] == items[..i];
        issued := issued + [CreateProduct(items[i])];
        if accepted(items[i]) {
          products := products + [items[i]];
        }
        stages := stages + [accepted(items[i])];
        i := i + 1;
      }
      assert items[..i] == items;
      ok := AwaitAll(stages);
    }

    /** The `forEach(blockingWait)` of the writer: wait for the answers in order;
        the first rejection throws, so the chunk succeeds exactly when every
        answer is an acceptance. */
    method AwaitAll(stages: seq<bool>) returns (ok: bool)
      ensures ok <==> forall k :: 0 <= k < |stages| ==> stages[k]
    {
      ok := true;
      var j := 0;
      while j < |stages| && ok
        invariant 0 <= j <= |stages|
        invariant ok <==> forall k :: 0 <= k < j ==> stages[k]
      {
        ok := stages[j];
        j := j + 1;
      }
    }

    /** The `importStep`: a fresh step context, then each chunk is passed through the
        filter processor and written; the step stops at the first failing chunk. */
    method ImportStep(chunks: seq<seq<ProductDraft>>, accepted: ProductDraft -> bool) returns (ok: bool)
      modifies this
      ensures issued == old(issued) + ImportRun(chunks, accepted).commands
      ensures products == old(products) + ImportRun(chunks, accepted).created
      ensures ok == ImportRun(chunks, accepted).ok
      ensures customerGroups == old(customerGroups) && productTypes == old(productTypes) && jobContext == old(jobContext)
      ensures stepContext == map[]
    {
      stepContext := map[];
      ok := true;
      var i := 0;
      while i < |chunks| && ok
        invariant 0 <= i <= |chunks|
        invariant issued == old(issued) + ImportRun(chunks[..i], accepted).commands
        invariant products == old(products) + ImportRun(chunks[..i], accepted).created
        invariant ok == ImportRun(chunks[..i], accepted).ok
        invariant customerGroups == old(customerGroups) && productTypes == old(productTypes) && jobContext == old(jobContext)
        invariant stepContext == map[]
      {
        var useful := FilterUseful(chunks[i]);
        var run := ImportRun(chunks[..i], accepted);
        ImportRunNext(chunks, i, accepted);
        SeqAssoc(old(issued), run.commands, CreateCommands(useful));
        SeqAssoc(old(products), run.created, Accepted(useful, accepted));
        ok := Write(useful, accepted);
        i := i + 1;
      }
      ImportRunPrefix(chunks, i, accepted);
    }

    /** `importProducts`: the customer group step, then the product types step, then
        the import step. */
    method RunJob(newId: string, chunks: seq<seq<ProductDraft>>, accepted: ProductDraft -> bool) returns (ok: bool)
      modifies this
      ensures issued == old(issued) + GroupCommands(old(customerGroups)) + [QueryAllProductTypes]
                        + ImportRun(chunks, accepted).commands
      ensures jobContext == old(jobContext)
                [B2bCustomerGroupStepContextKey := IdValue(GetOrCreate(old(customerGroups), newId).id)]
                [ProductTypesStepContextKey := ProductTypeList(old(productTypes))]
      ensures customerGroups == GetOrCreate(old(customerGroups), newId).groups
      ensures productTypes == old(productTypes)
      ensures products == old(products) + ImportRun(chunks, accepted).created
      ensures ok == ImportRun(chunks, accepted).ok
      ensures stepContext == map[]
    {
      GetOrCreateCustomerGroupStep(newId);
      GetProductTypesStep();
      ok := ImportStep(chunks, accepted);
    }
  }
}
