/** The client of the remote service and the presence session: which
    credential a call uses, which form fields a project write sends and in
    which order, when a devlog read is refused before any request, and the
    state kept for the presence daemon together with its login retries.

    The network is not modelled: a call's HTTP response is a parameter, and
    the outcome records the request that would be sent. */
module ApiCalls {
  import opened Outcomes
  import opened JsString

  const ApiBase := "https://flavortown.hackclub.com/api/v1"
  const ExtensionHeader := "X-Flavortown-Ext-11154"
  const FormContentType := "application/x-www-form-urlencoded"
  const ApiKeyNotSet := "Flavortown api key not set: please set it in the settings"
  const NoProjectSet := "No project set: please use the setup command to initialise the exentsion."
  /** The error a fetch response raises when its body is read a second time. */
  const BodyAlreadyRead := "Body is unusable"

  /** The `flavorcode` editor settings the client reads and writes. */
  datatype HostSettings = HostSettings(apiKey: Option<string>, projectId: Option<int>)

  // ---------------------------------------------------------------------------
  // Credential resolution

  /** `getApiKeyFromSettings`: the stored key, which must be set and not
      empty. */
  function GetApiKeyFromSettings(settings: HostSettings): (r: Result<string>)
    ensures r.Ok? <==> settings.apiKey.Some? && settings.apiKey.value != ""
    ensures r.Ok? ==> r.value == settings.apiKey.value
    ensures r.Threw? ==> r.message == ApiKeyNotSet
  {
    if settings.apiKey.Some? && settings.apiKey.value != "" then Ok(settings.apiKey.value)
    else Threw(ApiKeyNotSet)
  }

  /** `resolveApiKey`: a given key with something other than white space in it
      is used as it is, untrimmed; otherwise the stored key is used, and the
      call fails when that is unset or empty. A resolved key is never empty. */
  function ResolveApiKey(given: string, settings: HostSettings): (r: Result<string>)
    ensures HasContent(given) ==> r == Ok(given)
    ensures !HasContent(given) && settings.apiKey.Some? && settings.apiKey.value != "" ==>
      r == Ok(settings.apiKey.value)
    ensures r.Threw? <==> !HasContent(given) && (settings.apiKey.None? || settings.apiKey.value == "")
    ensures r.Threw? ==> r.message == ApiKeyNotSet
    ensures r.Ok? ==> r.value != ""
  {
    if given != "" && Trim(given) != "" then Ok(given) else GetApiKeyFromSettings(settings)
  }

  /** A given key with content makes the stored key irrelevant. */
  lemma GivenKeyWins(given: string, s1: HostSettings, s2: HostSettings)
    requires HasContent(given)
    ensures ResolveApiKey(given, s1) == ResolveApiKey(given, s2) == Ok(given)
  {
  }

  // ---------------------------------------------------------------------------
  // Form bodies (URLSearchParams)

  /** The name/value pairs of an `application/x-www-form-urlencoded` body, in
      order. */
  type FormBody = seq<(string, string)>

  /** The names of the pairs, in order. */
  function Keys(body: FormBody): (ks: seq<string>)
    ensures |ks| == |body|
    decreases |body|
  {
    if body == [] then [] else [body[0].0] + Keys(body[1..])
  }

  lemma {:induction false} KeysIndex(body: FormBody, j: nat)
    requires j < |body|
    ensures Keys(body)[j] == body[j].0
    decreases j
  {
    if j > 0 {
      KeysIndex(body[1..], j - 1);
    }
  }

  lemma {:induction false} KeysConcat(a: FormBody, b: FormBody)
    ensures Keys(a + b) == Keys(a) + Keys(b)
    decreases |a|
  {
    if a == [] {
      assert a + b == b;
    } else {
      assert (a + b)[1..] == a[1..] + b;
      KeysConcat(a[1..], b);
    }
  }

  /** No name occurs twice. */
  predicate Distinct(ks: seq<string>) {
    forall i, j :: 0 <= i < j < |ks| ==> ks[i] != ks[j]
  }

  /** `params.get(name)`: the value of the first pair with that name, if any. */
  function Lookup(body: FormBody, name: string): (r: Option<string>)
    ensures r.Some? <==> name in Keys(body)
    decreases |body|
  {
    if body == [] then None
    else if body[0].0 == name then Some(body[0].1)
    else Lookup(body[1..], name)
  }

  /** When no name occurs twice, every pair is what `get` reads for its
      name. */
  lemma {:induction false} LookupDistinct(body: FormBody, name: string, value: string)
    requires Distinct(Keys(body)) && (name, value) in body
    ensures Lookup(body, name) == Some(value)
    decreases |body|
  {
    if body[0] != (name, value) {
      var j :| 0 <= j < |body| && body[j] == (name, value);
      assert j > 0;
      KeysIndex(body, j);
      KeysIndex(body, 0);
      assert Keys(body)[0] != Keys(body)[j];
      assert body[0].0 != name;
      assert body[1..][j - 1] == (name, value);
      var rest := Keys(body[1..]);
      assert rest == Keys(body)[1..];
      assert Distinct(rest) by {
        forall a, b | 0 <= a < b < |rest| ensures rest[a] != rest[b] {
          assert rest[a] == Keys(body)[a + 1] && rest[b] == Keys(body)[b + 1];
        }
      }
      LookupDistinct(body[1..], name, value);
    }
  }

  /** The pairs of `body` not named `name`. */
  function RemoveAll(body: FormBody, name: string): (r: FormBody)
    ensures name !in Keys(r)
    decreases |body|
  {
    if body == [] then []
    else if body[0].0 == name then RemoveAll(body[1..], name)
    else
      var rest := RemoveAll(body[1..], name);
      assert ([body[0]] + rest)[1..] == rest;
      [body[0]] + rest
  }

  /** The first pair named `name` takes the new value; later ones are removed. */
  function SetExisting(body: FormBody, name: string, value: string): FormBody
    decreases |body|
  {
    if body == [] then []
    else if body[0].0 == name then [(name, value)] + RemoveAll(body[1..], name)
    else [body[0]] + SetExisting(body[1..], name, value)
  }

  /** `params.set(name, value)` as the URL standard defines it: replace the
      value of the first pair with that name and drop the others, or append a
      new pair when there is none. */
  function SetEntry(body: FormBody, name: string, value: string): (r: FormBody)
    ensures Lookup(r, name) == Some(value)
    ensures name !in Keys(body) ==> r == body + [(name, value)]
  {
    if name in Keys(body) then
      LookupSetExisting(body, name, value, name);
      SetExisting(body, name, value)
    else
      LookupAppend(body, name, value, name);
      body + [(name, value)]
  }

  lemma {:induction false} LookupRemoveAll(body: FormBody, name: string, other: string)
    requires other != name
    ensures Lookup(RemoveAll(body, name), other) == Lookup(body, other)
    decreases |body|
  {
    if body != [] {
      var rest := RemoveAll(body[1..], name);
      assert ([body[0]] + rest)[1..] == rest;
      LookupRemoveAll(body[1..], name, other);
    }
  }

  lemma {:induction false} LookupSetExisting(body: FormBody, name: string, value: string, other: string)
    requires name in Keys(body)
    ensures Lookup(SetExisting(body, name, value), name) == Some(value)
    ensures other != name ==> Lookup(SetExisting(body, name, value), other) == Lookup(body, other)
    decreases |body|
  {
    if body[0].0 == name {
      var rest := RemoveAll(body[1..], name);
      assert ([(name, value)] + rest)[1..] == rest;
      if other != name {
        LookupRemoveAll(body[1..], name, other);
      }
    } else {
      var rest := SetExisting(body[1..], name, value);
      assert ([body[0]] + rest)[1..] == rest;
      LookupSetExisting(body[1..], name, value, other);
    }
  }

  lemma {:induction false} LookupAppend(body: FormBody, name: string, value: string, other: string)
    ensures name !in Keys(body) ==> Lookup(body + [(name, value)], name) == Some(value)
    ensures other != name ==> Lookup(body + [(name, value)], other) == Lookup(body, other)
    decreases |body|
  {
    if body == [] {
      assert body + [(name, value)] == [(name, value)];
    } else {
      assert (body + [(name, value)])[1..] == body[1..] + [(name, value)];
      LookupAppend(body[1..], name, value, other);
    }
  }

  /** After `set`, reading the name gives the new value and every other name
      reads as before. */
  lemma SetEntryLookup(body: FormBody, name: string, value: string, other: string)
    ensures Lookup(SetEntry(body, name, value), name) == Some(value)
    ensures other != name ==> Lookup(SetEntry(body, name, value), other) == Lookup(body, other)
  {
    if name in Keys(body) {
      LookupSetExisting(body, name, value, other);
    } else {
      LookupAppend(body, name, value, other);
    }
  }

  /** `set` of a name not yet there appends one pair. */
  lemma SetFresh(body: FormBody, name: string, value: string)
    requires name !in Keys(body)
    ensures SetEntry(body, name, value) == body + [(name, value)]
    ensures Keys(SetEntry(body, name, value)) == Keys(body) + [name]
  {
    KeysConcat(body, [(name, value)]);
  }

  /** One step of `set`'s pass at index `i`. */
  lemma SetPassStep(s: FormBody, i: nat, name: string, value: string)
    requires i < |s|
    ensures SetExisting(s[i..], name, value) ==
      if s[i].0 == name then [(name, value)] + RemoveAll(s[i + 1..], name)
      else [s[i]] + SetExisting(s[i + 1..], name, value)
    ensures RemoveAll(s[i..], name) ==
      if s[i].0 == name then RemoveAll(s[i + 1..], name) else [s[i]] + RemoveAll(s[i + 1..], name)
  {
    assert s[i..][1..] == s[i + 1..];
  }

  /** What `set`'s pass still produces from index `i` on: the pairs with the
      new value in the first place named `name` when none was met yet, or with
      the remaining pairs of that name dropped once it was. */
  function Pending(s: FormBody, i: nat, found: bool, name: string, value: string): FormBody
    requires i <= |s|
  {
    if found then RemoveAll(s[i..], name) else SetExisting(s[i..], name, value)
  }

  lemma PassAdvance(s: FormBody, i: nat, name: string, value: string, kept: FormBody)
    requires i < |s|
    ensures s[i].0 == name ==>
      kept + Pending(s, i, false, name, value) == (kept + [(name, value)]) + Pending(s, i + 1, true, name, value)
    ensures s[i].0 == name ==>
      kept + Pending(s, i, true, name, value) == kept + Pending(s, i + 1, true, name, value)
    ensures s[i].0 != name ==>
      kept + Pending(s, i, false, name, value) == (kept + [s[i]]) + Pending(s, i + 1, false, name, value)
    ensures s[i].0 != name ==>
      kept + Pending(s, i, true, name, value) == (kept + [s[i]]) + Pending(s, i + 1, true, name, value)
    ensures Keys(s[..i + 1]) == Keys(s[..i]) + [s[i].0]
  {
    SetPassStep(s, i, name, value);
    assert s[..i + 1] == s[..i] + [s[i]];
    KeysConcat(s[..i], [s[i]]);
  }

  /** A `URLSearchParams` object, whose pairs `set` changes in place. */
  class SearchParams {
    var entries: FormBody

    /** `new URLSearchParams(init)` from a record: its pairs in order. */
    constructor (init: FormBody)
      ensures entries == init
    {
      entries := init;
    }

    /** `set(name, value)`: one pass over the pairs, keeping the first one with
        that name (with the new value) and dropping the others; appends when
        the name was not there. */
    method Set(name: string, value: string)
      modifies this
      ensures entries == SetEntry(old(entries), name, value)
    {
      var s := entries;
      var i := 0;
      var kept: FormBody := [];
      var found := false;
      while i < |s|
        invariant 0 <= i <= |s|
        invariant found <==> name in Keys(s[..i])
        invariant kept + Pending(s, i, found, name, value) == SetExisting(s, name, value)
      {
        PassAdvance(s, i, name, value, kept);
        if s[i].0 == name {
          if !found {
            kept := kept + [(name, value)];
            found := true;
          }
        } else {
          kept := kept + [s[i]];
        }
        i := i + 1;
      }
      assert s[..i] == s && s[i..] == [];
      entries := if found then kept else s + [(name, value)];
    }
  }

  /** An optional string argument that `if (arg)` lets through: present and
      not empty. */
  predicate Truthy(arg: Option<string>) {
    arg.Some? && arg.value != ""
  }

  /** The pair for an optional field, or nothing when it is omitted. */
  function OptionalField(name: string, arg: Option<string>): (r: FormBody)
    ensures Keys(r) == if Truthy(arg) then [name] else []
  {
    if Truthy(arg) then [(name, arg.value)] else []
  }

  /** The body `createProject` sends: title, description, then demo_url,
      ai_declaration and repo_url when given. */
  function CreateBody(title: string, description: string, repoUrl: string,
                      demo: Option<string>, aiDeclaration: Option<string>): (r: FormBody)
    ensures 2 <= |r| <= 5
    ensures r[0] == ("title", title) && r[1] == ("description", description)
    ensures forall i | 2 <= i < |r| :: r[i].1 != ""
  {
    [("title", title), ("description", description)]
      + OptionalField("demo_url", demo)
      + OptionalField("ai_declaration", aiDeclaration)
      + OptionalField("repo_url", Some(repoUrl))
  }

  /** The body `updateProject` sends: title, description, then repo_url,
      demo_url and ai_declaration when given. */
  function UpdateBody(title: string, description: string, repoUrl: Option<string>,
                      demo: Option<string>, aiDeclaration: Option<string>): (r: FormBody)
    ensures 2 <= |r| <= 5
    ensures r[0] == ("title", title) && r[1] == ("description", description)
    ensures forall i | 2 <= i < |r| :: r[i].1 != ""
  {
    [("title", title), ("description", description)]
      + OptionalField("repo_url", repoUrl)
      + OptionalField("demo_url", demo)
      + OptionalField("ai_declaration", aiDeclaration)
  }

  /** The order in which `createProject` sets its fields. */
  const CreateOrder: seq<string> := ["title", "description", "demo_url", "ai_declaration", "repo_url"]

  /** The order in which `updateProject` sets its fields. */
  const UpdateOrder: seq<string> := ["title", "description", "repo_url", "demo_url", "ai_declaration"]

  /** The names of `order` whose flag is set, in order. */
  function Keep(order: seq<string>, flags: seq<bool>): seq<string>
    requires |flags| == |order|
    decreases |order|
  {
    if order == [] then []
    else (if flags[0] then [order[0]] else []) + Keep(order[1..], flags[1..])
  }

  /** Keeping some names of an order that has no name twice gives a list with
      no name twice, holding exactly the names whose flag is set. */
  lemma {:induction false} KeepDistinct(order: seq<string>, flags: seq<bool>)
    requires |flags| == |order| && Distinct(order)
    ensures forall k :: k in Keep(order, flags) ==> k in order
    ensures Distinct(Keep(order, flags))
    ensures forall i :: 0 <= i < |order| ==> (order[i] in Keep(order, flags) <==> flags[i])
    decreases |order|
  {
    if order != [] {
      KeepDistinct(order[1..], flags[1..]);
      assert order[0] !in order[1..];
      assert forall i :: 1 <= i < |order| ==> order[i] == order[1..][i - 1] && flags[i] == flags[1..][i - 1];
    }
  }

  lemma FieldOrdersDistinct()
    ensures Distinct(CreateOrder) && Distinct(UpdateOrder)
  {
  }

  /** One step of `Keep`: the first flag decides on the first name. */
  lemma KeepCons(name: string, rest: seq<string>, flag: bool, flags: seq<bool>)
    requires |flags| == |rest|
    ensures Keep([name] + rest, [flag] + flags) == (if flag then [name] else []) + Keep(rest, flags)
  {
    assert ([name] + rest)[1..] == rest;
    assert ([flag] + flags)[1..] == flags;
  }

  /** Keeping from five names: each contributes itself exactly when its flag
      is set. */
  lemma KeepFive(n0: string, n1: string, n2: string, n3: string, n4: string,
                 f0: bool, f1: bool, f2: bool, f3: bool, f4: bool)
    ensures Keep([n0, n1, n2, n3, n4], [f0, f1, f2, f3, f4]) ==
      (if f0 then [n0] else []) + (if f1 then [n1] else []) + (if f2 then [n2] else [])
        + (if f3 then [n3] else []) + (if f4 then [n4] else [])
  {
    var e: seq<string>, g: seq<bool> := [], [];
    var r4, r3, r2, r1, r0 := [n4] + e, [n3] + ([n4] + e), [n2] + ([n3] + ([n4] + e)),
      [n1] + ([n2] + ([n3] + ([n4] + e))), [n0] + ([n1] + ([n2] + ([n3] + ([n4] + e))));
    var h4, h3, h2, h1, h0 := [f4] + g, [f3] + ([f4] + g), [f2] + ([f3] + ([f4] + g)),
      [f1] + ([f2] + ([f3] + ([f4] + g))), [f0] + ([f1] + ([f2] + ([f3] + ([f4] + g))));
    KeepCons(n4, e, f4, g);
    KeepCons(n3, r4, f3, h4);
    KeepCons(n2, r3, f2, h3);
    KeepCons(n1, r2, f1, h2);
    KeepCons(n0, r1, f0, h1);
    assert r0 == [n0, n1, n2, n3, n4] && h0 == [f0, f1, f2, f3, f4];
    ChainFive(Keep(r0, h0), Keep(r1, h1), Keep(r2, h2), Keep(r3, h3), Keep(r4, h4), Keep(e, g),
      if f0 then [n0] else [], if f1 then [n1] else [], if f2 then [n2] else [],
      if f3 then [n3] else [], if f4 then [n4] else []);
  }

  /** Five steps that each put a part in front of what follows, ending in
      nothing, give the five parts in order. */
  lemma ChainFive<T>(k0: seq<T>, k1: seq<T>, k2: seq<T>, k3: seq<T>, k4: seq<T>, k5: seq<T>,
                     p0: seq<T>, p1: seq<T>, p2: seq<T>, p3: seq<T>, p4: seq<T>)
    requires k0 == p0 + k1 && k1 == p1 + k2 && k2 == p2 + k3 && k3 == p3 + k4 && k4 == p4 + k5 && k5 == []
    ensures k0 == p0 + p1 + p2 + p3 + p4
  {
    assert p4 + k5 == p4;
  }

  lemma KeepCreateOrder(d: bool, a: bool, u: bool)
    ensures Keep(CreateOrder, [true, true, d, a, u]) ==
      ["title", "description"] + (if d then ["demo_url"] else [])
        + (if a then ["ai_declaration"] else []) + (if u then ["repo_url"] else [])
  {
    KeepFive("title", "description", "demo_url", "ai_declaration", "repo_url", true, true, d, a, u);
    assert ["title"] + ["description"] == ["title", "description"];
  }

  lemma KeepUpdateOrder(u: bool, d: bool, a: bool)
    ensures Keep(UpdateOrder, [true, true, u, d, a]) ==
      ["title", "description"] + (if u then ["repo_url"] else [])
        + (if d then ["demo_url"] else []) + (if a then ["ai_declaration"] else [])
  {
    KeepFive("title", "description", "repo_url", "demo_url", "ai_declaration", true, true, u, d, a);
    assert ["title"] + ["description"] == ["title", "description"];
  }

  lemma CreateBodyKeys(title: string, description: string, repoUrl: string,
                       demo: Option<string>, aiDeclaration: Option<string>)
    ensures Keys(CreateBody(title, description, repoUrl, demo, aiDeclaration)) ==
      ["title", "description"] + (if Truthy(demo) then ["demo_url"] else [])
        + (if Truthy(aiDeclaration) then ["ai_declaration"] else []) + (if repoUrl != "" then ["repo_url"] else [])
  {
    var base: FormBody := [("title", title), ("description", description)];
    var d := OptionalField("demo_url", demo);
    var a := OptionalField("ai_declaration", aiDeclaration);
    var u := OptionalField("repo_url", Some(repoUrl));
    assert CreateBody(title, description, repoUrl, demo, aiDeclaration) == base + d + a + u;
    KeysOfFour(base, d, a, u);
    KeysConcat([("title", title)], [("description", description)]);
    assert base == [("title", title)] + [("description", description)];
  }

  /** The keys of four bodies sent one after the other. */
  lemma KeysOfFour(b0: FormBody, b1: FormBody, b2: FormBody, b3: FormBody)
    ensures Keys(b0 + b1 + b2 + b3) == Keys(b0) + Keys(b1) + Keys(b2) + Keys(b3)
  {
    KeysConcat(b0, b1);
    KeysConcat(b0 + b1, b2);
    KeysConcat(b0 + b1 + b2, b3);
  }

  lemma UpdateBodyKeys(title: string, description: string, repoUrl: Option<string>,
                       demo: Option<string>, aiDeclaration: Option<string>)
    ensures Keys(UpdateBody(title, description, repoUrl, demo, aiDeclaration)) ==
      ["title", "description"] + (if Truthy(repoUrl) then ["repo_url"] else [])
        + (if Truthy(demo) then ["demo_url"] else []) + (if Truthy(aiDeclaration) then ["ai_declaration"] else [])
  {
    var base: FormBody := [("title", title), ("description", description)];
    var u := OptionalField("repo_url", repoUrl);
    var d := OptionalField("demo_url", demo);
    var a := OptionalField("ai_declaration", aiDeclaration);
    assert UpdateBody(title, description, repoUrl, demo, aiDeclaration) == base + u + d + a;
    KeysOfFour(base, u, d, a);
    KeysConcat([("title", title)], [("description", description)]);
    assert base == [("title", title)] + [("description", description)];
  }

  /** `createProject`'s field names are the fixed field order with the
      omitted fields left out, so none appears twice. */
  lemma CreateBodyOrder(title: string, description: string, repoUrl: string,
                        demo: Option<string>, aiDeclaration: Option<string>)
    ensures var body := CreateBody(title, description, repoUrl, demo, aiDeclaration);
      && Keys(body) == Keep(CreateOrder, [true, true, Truthy(demo), Truthy(aiDeclaration), repoUrl != ""])
      && Distinct(Keys(body))
  {
    CreateBodyKeys(title, description, repoUrl, demo, aiDeclaration);
    KeepCreateOrder(Truthy(demo), Truthy(aiDeclaration), repoUrl != "");
    FieldOrdersDistinct();
    KeepDistinct(CreateOrder, [true, true, Truthy(demo), Truthy(aiDeclaration), repoUrl != ""]);
  }

  /** `createProject` sends title and description always, and each optional
      field exactly when its argument is a non-empty string, with that
      value. */
  lemma CreateBodyValues(title: string, description: string, repoUrl: string,
                         demo: Option<string>, aiDeclaration: Option<string>)
    ensures var body := CreateBody(title, description, repoUrl, demo, aiDeclaration);
      && ("title", title) in body && ("description", description) in body
      && ("demo_url" in Keys(body) <==> Truthy(demo))
      && (Truthy(demo) ==> ("demo_url", demo.value) in body)
      && ("ai_declaration" in Keys(body) <==> Truthy(aiDeclaration))
      && (Truthy(aiDeclaration) ==> ("ai_declaration", aiDeclaration.value) in body)
      && ("repo_url" in Keys(body) <==> repoUrl != "")
      && (repoUrl != "" ==> ("repo_url", repoUrl) in body)
  {
    var base: FormBody := [("title", title), ("description", description)];
    var d := OptionalField("demo_url", demo);
    var a := OptionalField("ai_declaration", aiDeclaration);
    var u := OptionalField("repo_url", Some(repoUrl));
    assert CreateBody(title, description, repoUrl, demo, aiDeclaration) == base + d + a + u;
    BaseKeys(title, description);
    ThreeOptional(base, "demo_url", demo, "ai_declaration", aiDeclaration, "repo_url", Some(repoUrl));
  }

  /** Three optional fields with distinct names, none of which the base
      holds, after the base: each is in the body exactly when its argument is
      truthy, and then with its value. */
  lemma ThreeOptional(base: FormBody, n0: string, x0: Option<string>, n1: string, x1: Option<string>,
                      n2: string, x2: Option<string>)
    requires n0 != n1 && n0 != n2 && n1 != n2
    requires n0 !in Keys(base) && n1 !in Keys(base) && n2 !in Keys(base)
    ensures var body := base + OptionalField(n0, x0) + OptionalField(n1, x1) + OptionalField(n2, x2);
      && (n0 in Keys(body) <==> Truthy(x0)) && (Truthy(x0) ==> (n0, x0.value) in body)
      && (n1 in Keys(body) <==> Truthy(x1)) && (Truthy(x1) ==> (n1, x1.value) in body)
      && (n2 in Keys(body) <==> Truthy(x2)) && (Truthy(x2) ==> (n2, x2.value) in body)
  {
    var f0, f1, f2 := OptionalField(n0, x0), OptionalField(n1, x1), OptionalField(n2, x2);
    FirstOptional(base, n0, x0, f1, f2);
    SecondOptional(base, f0, n1, x1, f2);
    ThirdOptional(base, f0, f1, n2, x2);
  }

  lemma FirstOptional(base: FormBody, n0: string, x0: Option<string>, f1: FormBody, f2: FormBody)
    requires n0 !in Keys(base) && n0 !in Keys(f1) && n0 !in Keys(f2)
    ensures var body := base + OptionalField(n0, x0) + f1 + f2;
      (n0 in Keys(body) <==> Truthy(x0)) && (Truthy(x0) ==> (n0, x0.value) in body)
  {
    var f0 := OptionalField(n0, x0);
    Regroup(base + f0, f1, f2);
    KeysConcat(f1, f2);
    OptionalIn(n0, x0, base, f1 + f2);
  }

  lemma SecondOptional(base: FormBody, f0: FormBody, n1: string, x1: Option<string>, f2: FormBody)
    requires n1 !in Keys(base) && n1 !in Keys(f0) && n1 !in Keys(f2)
    ensures var body := base + f0 + OptionalField(n1, x1) + f2;
      (n1 in Keys(body) <==> Truthy(x1)) && (Truthy(x1) ==> (n1, x1.value) in body)
  {
    KeysConcat(base, f0);
    OptionalIn(n1, x1, base + f0, f2);
  }

  lemma ThirdOptional(base: FormBody, f0: FormBody, f1: FormBody, n2: string, x2: Option<string>)
    requires n2 !in Keys(base) && n2 !in Keys(f0) && n2 !in Keys(f1)
    ensures var body := base + f0 + f1 + OptionalField(n2, x2);
      (n2 in Keys(body) <==> Truthy(x2)) && (Truthy(x2) ==> (n2, x2.value) in body)
  {
    var pre := base + f0 + f1;
    KeysConcat(base, f0);
    KeysConcat(base + f0, f1);
    Regroup(pre, OptionalField(n2, x2), []);
    OptionalIn(n2, x2, pre, []);
  }

  lemma Regroup<T>(a: seq<T>, b: seq<T>, c: seq<T>)
    ensures a + b + c == a + (b + c) && a + b + [] == a + b
  {
  }

  /** An optional field whose name occurs nowhere else is in the body exactly
      when its argument is truthy, and then with its value. */
  lemma OptionalIn(name: string, arg: Option<string>, pre: FormBody, post: FormBody)
    requires name !in Keys(pre) && name !in Keys(post)
    ensures var body := pre + OptionalField(name, arg) + post;
      && (name in Keys(body) <==> Truthy(arg))
      && (Truthy(arg) ==> (name, arg.value) in body)
  {
    var f := OptionalField(name, arg);
    KeysConcat(pre, f);
    KeysConcat(pre + f, post);
    if Truthy(arg) {
      assert (pre + f + post)[|pre|] == (name, arg.value);
    }
  }

  /** `updateProject`'s field names are the fixed field order with the
      omitted fields left out, so none appears twice. */
  lemma UpdateBodyOrder(title: string, description: string, repoUrl: Option<string>,
                        demo: Option<string>, aiDeclaration: Option<string>)
    ensures var body := UpdateBody(title, description, repoUrl, demo, aiDeclaration);
      && Keys(body) == Keep(UpdateOrder, [true, true, Truthy(repoUrl), Truthy(demo), Truthy(aiDeclaration)])
      && Distinct(Keys(body))
  {
    UpdateBodyKeys(title, description, repoUrl, demo, aiDeclaration);
    KeepUpdateOrder(Truthy(repoUrl), Truthy(demo), Truthy(aiDeclaration));
    FieldOrdersDistinct();
    KeepDistinct(UpdateOrder, [true, true, Truthy(repoUrl), Truthy(demo), Truthy(aiDeclaration)]);
  }

  /** `updateProject` sends title and description always, and each optional
      field exactly when its argument is a non-empty string, with that
      value. */
  lemma UpdateBodyValues(title: string, description: string, repoUrl: Option<string>,
                         demo: Option<string>, aiDeclaration: Option<string>)
    ensures var body := UpdateBody(title, description, repoUrl, demo, aiDeclaration);
      && ("title", title) in body && ("description", description) in body
      && ("repo_url" in Keys(body) <==> Truthy(repoUrl))
      && (Truthy(repoUrl) ==> ("repo_url", repoUrl.value) in body)
      && ("demo_url" in Keys(body) <==> Truthy(demo))
      && (Truthy(demo) ==> ("demo_url", demo.value) in body)
      && ("ai_declaration" in Keys(body) <==> Truthy(aiDeclaration))
      && (Truthy(aiDeclaration) ==> ("ai_declaration", aiDeclaration.value) in body)
  {
    var base: FormBody := [("title", title), ("description", description)];
    var u := OptionalField("repo_url", repoUrl);
    var d := OptionalField("demo_url", demo);
    var a := OptionalField("ai_declaration", aiDeclaration);
    assert UpdateBody(title, description, repoUrl, demo, aiDeclaration) == base + u + d + a;
    BaseKeys(title, description);
    ThreeOptional(base, "repo_url", repoUrl, "demo_url", demo, "ai_declaration", aiDeclaration);
  }

  /** An empty string and a missing argument send the same body. */
  lemma EmptyAndMissingAgree(title: string, description: string)
    ensures CreateBody(title, description, "", Some(""), Some("")) == CreateBody(title, description, "", None, None)
    ensures UpdateBody(title, description, Some(""), Some(""), Some("")) == UpdateBody(title, description, None, None, None)
  {
  }

  lemma BaseKeys(title: string, description: string)
    ensures Keys([("title", title), ("description", description)]) == ["title", "description"]
  {
    KeysConcat([("title", title)], [("description", description)]);
    assert [("title", title), ("description", description)] == [("title", title)] + [("description", description)];
  }

  /** Each optional field `createProject` sets is not yet in the params. */
  lemma CreateNamesFresh(title: string, description: string, demo: Option<string>, aiDeclaration: Option<string>)
    ensures var base: FormBody := [("title", title), ("description", description)];
      var d := OptionalField("demo_url", demo);
      var a := OptionalField("ai_declaration", aiDeclaration);
      && "demo_url" !in Keys(base)
      && "ai_declaration" !in Keys(base + d)
      && "repo_url" !in Keys(base + d + a)
  {
    var base: FormBody := [("title", title), ("description", description)];
    var d := OptionalField("demo_url", demo);
    var a := OptionalField("ai_declaration", aiDeclaration);
    BaseKeys(title, description);
    KeysConcat(base, d);
    KeysConcat(base + d, a);
    FieldOrdersDistinct();
    assert CreateOrder[2] != CreateOrder[0] && CreateOrder[2] != CreateOrder[1];
    assert CreateOrder[3] != CreateOrder[0] && CreateOrder[3] != CreateOrder[1] && CreateOrder[3] != CreateOrder[2];
    assert CreateOrder[4] != CreateOrder[0] && CreateOrder[4] != CreateOrder[1];
    assert CreateOrder[4] != CreateOrder[2] && CreateOrder[4] != CreateOrder[3];
  }

  /** Each optional field `updateProject` sets is not yet in the params. */
  lemma UpdateNamesFresh(title: string, description: string, repoUrl: Option<string>, demo: Option<string>)
    ensures var base: FormBody := [("title", title), ("description", description)];
      var u := OptionalField("repo_url", repoUrl);
      var d := OptionalField("demo_url", demo);
      && "repo_url" !in Keys(base)
      && "demo_url" !in Keys(base + u)
      && "ai_declaration" !in Keys(base + u + d)
  {
    var base: FormBody := [("title", title), ("description", description)];
    var u := OptionalField("repo_url", repoUrl);
    var d := OptionalField("demo_url", demo);
    BaseKeys(title, description);
    KeysConcat(base, u);
    KeysConcat(base + u, d);
    FieldOrdersDistinct();
    assert UpdateOrder[2] != UpdateOrder[0] && UpdateOrder[2] != UpdateOrder[1];
    assert UpdateOrder[3] != UpdateOrder[0] && UpdateOrder[3] != UpdateOrder[1] && UpdateOrder[3] != UpdateOrder[2];
    assert UpdateOrder[4] != UpdateOrder[0] && UpdateOrder[4] != UpdateOrder[1];
    assert UpdateOrder[4] != UpdateOrder[2] && UpdateOrder[4] != UpdateOrder[3];
  }

  /** Builds `createProject`'s body as the source does: a `URLSearchParams`
      from title and description, then one `set` per truthy optional field;
      every `set` adds a field not there yet. */
  method BuildCreateBody(title: string, description: string, repoUrl: string,
                         demo: Option<string>, aiDeclaration: Option<string>) returns (body: FormBody)
    ensures body == CreateBody(title, description, repoUrl, demo, aiDeclaration)
  {
    var base: FormBody := [("title", title), ("description", description)];
    var d := OptionalField("demo_url", demo);
    var a := OptionalField("ai_declaration", aiDeclaration);
    var u := OptionalField("repo_url", Some(repoUrl));
    CreateNamesFresh(title, description, demo, aiDeclaration);
    var params := new SearchParams(base);
    if Truthy(demo) {
      SetFresh(params.entries, "demo_url", demo.value);
      params.Set("demo_url", demo.value);
    }
    assert params.entries == base + d;
    if Truthy(aiDeclaration) {
      SetFresh(params.entries, "ai_declaration", aiDeclaration.value);
      params.Set("ai_declaration", aiDeclaration.value);
    }
    assert params.entries == base + d + a;
    if repoUrl != "" {
      SetFresh(params.entries, "repo_url", repoUrl);
      params.Set("repo_url", repoUrl);
    }
    assert params.entries == base + d + a + u;
    body := params.entries;
  }

  /** Builds `updateProject`'s body as the source does; every `set` adds a
      field not there yet. */
  method BuildUpdateBody(title: string, description: string, repoUrl: Option<string>,
                         demo: Option<string>, aiDeclaration: Option<string>) returns (body: FormBody)
    ensures body == UpdateBody(title, description, repoUrl, demo, aiDeclaration)
  {
    var base: FormBody := [("title", title), ("description", description)];
    var u := OptionalField("repo_url", repoUrl);
    var d := OptionalField("demo_url", demo);
    var a := OptionalField("ai_declaration", aiDeclaration);
    UpdateNamesFresh(title, description, repoUrl, demo);
    var params := new SearchParams(base);
    if Truthy(repoUrl) {
      SetFresh(params.entries, "repo_url", repoUrl.value);
      params.Set("repo_url", repoUrl.value);
    }
    assert params.entries == base + u;
    if Truthy(demo) {
      SetFresh(params.entries, "demo_url", demo.value);
      params.Set("demo_url", demo.value);
    }
    assert params.entries == base + u + d;
    if Truthy(aiDeclaration) {
      SetFresh(params.entries, "ai_declaration", aiDeclaration.value);
      params.Set("ai_declaration", aiDeclaration.value);
    }
    assert params.entries == base + u + d + a;
    body := params.entries;
  }

  // ---------------------------------------------------------------------------
  // Calls

  /** A request the client sends. */
  datatype Request = Request(verb: string, url: string, headers: seq<(string, string)>, body: FormBody)

  /** The HTTP response a request gets, with its decoded JSON payload. */
  datatype HttpResponse<T> = HttpResponse(ok: bool, status: int, text: string, payload: T)

  /** What a call does: the request it sends (if any), the settings afterwards,
      the error messages it shows, and what it returns (None for `undefined`)
      or throws. */
  datatype CallOutcome<T> = CallOutcome(
    request: Option<Request>,
    settings: HostSettings,
    shown: seq<string>,
    result: Result<Option<T>>)

  /** A project as the service returns it. */
  datatype Project = Project(
    id: int,
    title: string,
    description: string,
    repoUrl: Option<string>,
    demoUrl: Option<string>,
    readmeUrl: Option<string>,
    aiDeclaration: Option<string>,
    shipStatus: string,
    devlogIds: seq<int>,
    createdAt: string,
    updatedAt: string)

  function Headers(apiKey: string): seq<(string, string)> {
    [("Authorization", "Bearer " + apiKey), ("Content-Type", FormContentType), (ExtensionHeader, "true")]
  }

  /** The text of an error raised for a response that is not ok. */
  function Failure(what: string, response: HttpResponse): string {
    "Failed to " + what + ": " + IntText(response.status) + " " + response.text
  }

  /** `createProject`, the error thrown for a response that is not ok being
      `thrown`. Such a response has its failure shown and then throws; the
      stored project id becomes the new project's id only when `setAsCurrent`
      holds and the response was ok, and nothing else in the settings
      changes. */
  function CreateProjectCall(given: string, settings: HostSettings, setAsCurrent: bool,
                             title: string, description: string, repoUrl: string,
                             demo: Option<string>, aiDeclaration: Option<string>,
                             response: HttpResponse<Project>, thrown: string): (o: CallOutcome<Project>)
    ensures o.request.Some? <==> ResolveApiKey(given, settings).Ok?
    ensures o.request.Some? ==>
      (o.request.value.verb == "POST"
       && o.request.value.url == ApiBase + "/projects"
       && o.request.value.body == CreateBody(title, description, repoUrl, demo, aiDeclaration))
    ensures o.settings.apiKey == settings.apiKey
    ensures o.settings.projectId != settings.projectId ==> setAsCurrent && response.ok && o.request.Some?
    ensures o.request.Some? && setAsCurrent && response.ok ==> o.settings.projectId == Some(response.payload.id)
    ensures o.result.Ok? <==> o.request.Some? && response.ok
    ensures o.result.Ok? ==> o.result.value == Some(response.payload)
    ensures o.shown != [] <==> o.request.Some? && !response.ok
  {
    match ResolveApiKey(given, settings)
    case Threw(message) => CallOutcome(None, settings, [], Threw(message))
    case Ok(key) =>
      var request := Request("POST", ApiBase + "/projects", Headers(key),
        CreateBody(title, description, repoUrl, demo, aiDeclaration));
      if !response.ok then
        CallOutcome(Some(request), settings, [Failure("create Project", response)], Threw(thrown))
      else
        var after := if setAsCurrent then settings.(projectId := Some(response.payload.id)) else settings;
        CallOutcome(Some(request), after, [], Ok(Some(response.payload)))
  }

  /** `createProject` as written: the failure text is built twice, each time
      reading the response body, and the second read throws. */
  function CreateProject(given: string, settings: HostSettings, setAsCurrent: bool,
                         title: string, description: string, repoUrl: string,
                         demo: Option<string>, aiDeclaration: Option<string>,
                         response: HttpResponse<Project>): (o: CallOutcome<Project>)
    ensures o.request.Some? && !response.ok ==>
      o.shown == [Failure("create Project", response)] && o.result == Threw(BodyAlreadyRead)
  {
    CreateProjectCall(given, settings, setAsCurrent, title, description, repoUrl, demo, aiDeclaration,
      response, BodyAlreadyRead)
  }

  /** `createProject` as evidently intended: the error thrown carries the
      failure text that was shown. */
  function CreateProjectIntended(given: string, settings: HostSettings, setAsCurrent: bool,
                                 title: string, description: string, repoUrl: string,
                                 demo: Option<string>, aiDeclaration: Option<string>,
                                 response: HttpResponse<Project>): (o: CallOutcome<Project>)
    ensures o.request.Some? && !response.ok ==>
      o.shown == [Failure("create Project", response)] && o.result == Threw(o.shown[0])
  {
    CreateProjectCall(given, settings, setAsCurrent, title, description, repoUrl, demo, aiDeclaration,
      response, Failure("create Project", response))
  }

  /** As written, a failed creation throws an error other than the failure it
      has just shown: the status and the server's text are lost to the
      caller. */
  lemma CreateFailureLosesMessage(given: string, settings: HostSettings, setAsCurrent: bool,
                                  title: string, description: string, repoUrl: string,
                                  demo: Option<string>, aiDeclaration: Option<string>,
                                  response: HttpResponse<Project>)
    requires ResolveApiKey(given, settings).Ok? && !response.ok
    ensures var o := CreateProject(given, settings, setAsCurrent, title, description, repoUrl, demo, aiDeclaration, response);
      && o.shown == [Failure("create Project", response)]
      && o.result == Threw(BodyAlreadyRead)
      && o.result.message != o.shown[0]
  {
    assert BodyAlreadyRead[0] != Failure("create Project", response)[0];
  }

  /** As intended, a failed creation throws exactly the failure it shows, and
      leaves the settings alone. */
  lemma CreateFailureReported(given: string, settings: HostSettings, setAsCurrent: bool,
                              title: string, description: string, repoUrl: string,
                              demo: Option<string>, aiDeclaration: Option<string>,
                              response: HttpResponse<Project>)
    requires ResolveApiKey(given, settings).Ok? && !response.ok
    ensures var o := CreateProjectIntended(given, settings, setAsCurrent, title, description, repoUrl, demo, aiDeclaration, response);
      && |o.shown| == 1
      && o.result == Threw(o.shown[0])
      && o.settings == settings
  {
  }

  /** `updateProject`: a PATCH of the project with the fields given; it never
      changes the settings. */
  function UpdateProject(given: string, settings: HostSettings, id: int,
                         title: string, description: string, repoUrl: Option<string>,
                         demo: Option<string>, aiDeclaration: Option<string>,
                         response: HttpResponse<Project>): (o: CallOutcome<Project>)
    ensures o.settings == settings && o.shown == []
    ensures o.request.Some? <==> ResolveApiKey(given, settings).Ok?
    ensures o.request.Some? ==>
      (o.request.value.verb == "PATCH"
       && o.request.value.url == ApiBase + "/projects/" + IntText(id)
       && o.request.value.body == UpdateBody(title, description, repoUrl, demo, aiDeclaration))
    ensures o.result.Ok? <==> o.request.Some? && response.ok
    ensures o.result.Ok? ==> o.result.value == Some(response.payload)
    ensures o.request.Some? && !response.ok ==> o.result == Threw(Failure("update Project", response))
    ensures o.request.None? ==> o.result == Threw(ApiKeyNotSet)
  {
    match ResolveApiKey(given, settings)
    case Threw(message) => CallOutcome(None, settings, [], Threw(message))
    case Ok(key) =>
      var request := Request("PATCH", ApiBase + "/projects/" + IntText(id), Headers(key),
        UpdateBody(title, description, repoUrl, demo, aiDeclaration));
      if !response.ok then CallOutcome(Some(request), settings, [], Threw(Failure("update Project", response)))
      else CallOutcome(Some(request), settings, [], Ok(Some(response.payload)))
  }

  /** A project is selected: the stored id is set and not 0. */
  predicate ProjectSelected(settings: HostSettings) {
    settings.projectId.Some? && settings.projectId.value != 0
  }

  /** `getProjectDevlogs`: with a credential but no selected project it shows
      the setup message and returns `undefined` without sending anything;
      otherwise it reads the selected project's devlogs. */
  function GetProjectDevlogs<T>(given: string, settings: HostSettings, response: HttpResponse<T>): (o: CallOutcome<T>)
    ensures o.settings == settings
    ensures o.request.Some? <==> ResolveApiKey(given, settings).Ok? && ProjectSelected(settings)
    ensures ResolveApiKey(given, settings).Ok? && !ProjectSelected(settings) ==>
      (o.result == Ok(None) && o.shown == [NoProjectSet])
    ensures o.request.Some? ==>
      (o.request.value.verb == "GET"
       && o.request.value.url == ApiBase + "/projects/" + IntText(settings.projectId.value) + "/devlogs")
    ensures o.result.Ok? && o.result.value.Some? <==> o.request.Some? && response.ok
    ensures o.result.Ok? && o.result.value.Some? ==> o.result.value.value == response.payload
    ensures o.request.Some? && !response.ok ==> o.result == Threw(Failure("get devlogs", response)) && o.shown == []
    ensures ResolveApiKey(given, settings).Threw? ==> o.result == Threw(ApiKeyNotSet) && o.shown == []
  {
    match ResolveApiKey(given, settings)
    case Threw(message) => CallOutcome(None, settings, [], Threw(message))
    case Ok(key) =>
      if !ProjectSelected(settings) then CallOutcome(None, settings, [NoProjectSet], Ok(None))
      else
        var request := Request("GET", ApiBase + "/projects/" + IntText(settings.projectId.value) + "/devlogs",
          Headers(key), []);
        if !response.ok then CallOutcome(Some(request), settings, [], Threw(Failure("get devlogs", response)))
        else CallOutcome(Some(request), settings, [], Ok(Some(response.payload)))
  }

  /** `getDevlog`: reads one devlog by its id, but like `getProjectDevlogs`
      refuses, without sending anything, when no project is selected. */
  function GetDevlog<T>(given: string, settings: HostSettings, id: int, response: HttpResponse<T>): (o: CallOutcome<T>)
    ensures o.settings == settings
    ensures o.request.Some? <==> ResolveApiKey(given, settings).Ok? && ProjectSelected(settings)
    ensures ResolveApiKey(given, settings).Ok? && !ProjectSelected(settings) ==>
      (o.result == Ok(None) && o.shown == [NoProjectSet])
    ensures o.request.Some? ==> (o.request.value.verb == "GET" && o.request.value.url == ApiBase + "/devlogs/" + IntText(id))
    ensures o.result.Ok? && o.result.value.Some? <==> o.request.Some? && response.ok
    ensures o.result.Ok? && o.result.value.Some? ==> o.result.value.value == response.payload
    ensures o.request.Some? && !response.ok ==> o.result == Threw(Failure("get devlogs", response)) && o.shown == []
    ensures ResolveApiKey(given, settings).Threw? ==> o.result == Threw(ApiKeyNotSet) && o.shown == []
  {
    match ResolveApiKey(given, settings)
    case Threw(message) => CallOutcome(None, settings, [], Threw(message))
    case Ok(key) =>
      if !ProjectSelected(settings) then CallOutcome(None, settings, [NoProjectSet], Ok(None))
      else
        var request := Request("GET", ApiBase + "/devlogs/" + IntText(id), Headers(key), []);
        if !response.ok then CallOutcome(Some(request), settings, [], Threw(Failure("get devlogs", response)))
        else CallOutcome(Some(request), settings, [], Ok(Some(response.payload)))
  }

  // ---------------------------------------------------------------------------
  // Presence session

  const ClientId := "1469410921704194090"
  const ProjectPageBase := "https://flavortown.hackclub.com/projects/"
  const ButtonText := "To the Project"
  const MaxLabelLength := 32
  const MaxUrlLength := 512

  /** The latest status to show: project title, project id and devlog count. */
  datatype Activity = Activity(title: string, projectId: string, devlogs: nat)

  datatype ActivityButton = ActivityButton(caption: string, url: string)

  /** What `setActivity` is sent. */
  datatype ActivityPayload = ActivityPayload(
    details: string,
    state: string,
    largeImageKey: string,
    largeImageText: string,
    buttons: seq<ActivityButton>)

  /** The payload built from an activity: one button, whose label and link are
      cut to 32 and 512 characters, the link being a prefix of the project's
      page address (all of it when that fits). */
  function Payload(a: Activity): (p: ActivityPayload)
    ensures p.details == "Working on: " + a.title
    ensures p.state == "Devlogs so far: " + Decimal(a.devlogs)
    ensures |p.buttons| == 1
    ensures p.largeImageKey == "flavortown" && p.largeImageText == "Flavortown"
    ensures p.buttons[0].caption == ButtonText && |p.buttons[0].caption| <= MaxLabelLength
    ensures StartsWith(ProjectPageBase + a.projectId, p.buttons[0].url)
    ensures |p.buttons[0].url| == if |ProjectPageBase + a.projectId| <= MaxUrlLength then |ProjectPageBase + a.projectId| else MaxUrlLength
    ensures |ProjectPageBase + a.projectId| <= MaxUrlLength ==> p.buttons[0].url == ProjectPageBase + a.projectId
  {
    ActivityPayload(
      "Working on: " + a.title,
      "Devlogs so far: " + Decimal(a.devlogs),
      "flavortown",
      "Flavortown",
      [ActivityButton(SliceTo(ButtonText, MaxLabelLength), SliceTo(ProjectPageBase + a.projectId, MaxUrlLength))])
  }

  /** The calls the presence daemon receives. */
  datatype DaemonCall = Register(clientId: string) | SetActivity(payload: ActivityPayload) | ClearActivity | Destroy

  /** The daemon client object; only its identity matters here. */
  class RpcClient {
    constructor () {}
  }

  /** The module-level presence state: the client (`rpc`), whether it is
      ready, and the last requested activity, a single slot that each connect
      overwrites. `log` records the calls made on the daemon. */
  class Presence {
    var rpc: RpcClient?
    var rpcReady: bool
    var lastActivity: Option<Activity>
    var log: seq<DaemonCall>

    /** A client exists only together with an activity to show. */
    ghost predicate Valid()
      reads this
    {
      rpc != null ==> lastActivity.Some?
    }

    /** Whether `updateActivity` sends a status now. */
    predicate CanSend()
      reads this
    {
      rpc != null && rpcReady && lastActivity.Some?
    }

    constructor ()
      ensures Valid()
      ensures rpc == null && !rpcReady && lastActivity == None && log == []
    {
      rpc := null;
      rpcReady := false;
      lastActivity := None;
      log := [];
    }

    /** `updateActivity`: sends the last activity when there is a client that
        is ready and an activity; otherwise does nothing. */
    method UpdateActivity()
      modifies this`log
      ensures log == old(log) + if CanSend() then [SetActivity(Payload(lastActivity.value))] else []
    {
      if rpc == null || !rpcReady || lastActivity.None? {
        return;
      }
      log := log + [SetActivity(Payload(lastActivity.value))];
    }

    /** `connectDiscordGateway`: registers, overwrites the activity slot, and
        either creates a client (whose login then starts; see `Login`) or, when
        one exists, updates the status. Returns whether a client was created. */
    method Connect(title: string, projectId: string, devlogs: nat) returns (created: bool)
      requires Valid()
      modifies this
      ensures Valid()
      ensures lastActivity == Some(Activity(title, projectId, devlogs))
      ensures rpcReady == old(rpcReady)
      ensures created == (old(rpc) == null)
      ensures created ==> fresh(rpc) && log == old(log) + [Register(ClientId)]
      ensures !created ==>
        (rpc == old(rpc)
         && log == old(log) + [Register(ClientId)] + if rpcReady then [SetActivity(Payload(lastActivity.value))] else [])
    {
      log := log + [Register(ClientId)];
      lastActivity := Some(Activity(title, projectId, devlogs));
      if rpc == null {
        rpc := new RpcClient();
        created := true;
        return;
      }
      created := false;
      UpdateActivity();
    }

    /** The client's `ready` event: marks the session ready and sends the
        last activity. */
    method OnReady()
      requires Valid()
      modifies this
      ensures Valid()
      ensures rpcReady && rpc == old(rpc) && lastActivity == old(lastActivity)
      ensures log == old(log) + if rpc != null then [SetActivity(Payload(lastActivity.value))] else []
    {
      rpcReady := true;
      UpdateActivity();
    }

    /** `disconnectDiscordGateway`: without a client, nothing. Otherwise it
        clears the status and destroys the client; `completed` of these two
        calls return before one throws (2 or more: none throws). Whatever
        happens, the client, the ready flag and the activity are cleared, and
        a throw is passed on to the caller. */
    method Disconnect(completed: nat) returns (raised: bool)
      requires Valid()
      modifies this
      ensures Valid()
      ensures old(rpc) == null ==>
        (!raised && rpc == null && rpcReady == old(rpcReady)
         && lastActivity == old(lastActivity) && log == old(log))
      ensures old(rpc) != null ==>
        (rpc == null && !rpcReady && lastActivity == None
         && raised == (completed < 2)
         && log == old(log) + [ClearActivity, Destroy][..if completed < 2 then completed else 2])
    {
      raised := false;
      if rpc == null {
        return;
      }
      var teardown := [ClearActivity, Destroy];
      log := log + teardown[..if completed < 2 then completed else 2];
      raised := completed < 2;
      rpc := null;
      rpcReady := false;
      lastActivity := None;
    }
  }

  // ---------------------------------------------------------------------------
  // Login retries

  const MaxEntries := 5
  const TimeoutSignature := "RPC_CONNECTION_TIMEOUT"
  const BaseDelayMs := 1000
  const MaxDelayMs := 10000
  const LoginErrorPrefix := "Flavortown discord richpresence: "

  datatype LoginOutcome = LoggedIn | LoginFailed(message: string)

  /** The delays waited between attempts, the number of attempts made, and the
      error shown at the end (None when the login succeeded). */
  datatype LoginTrace = LoginTrace(delays: seq<nat>, attempts: nat, shownError: Option<string>)

  function Pow2(n: nat): (r: nat)
    ensures r >= 1
  {
    if n == 0 then 1 else 2 * Pow2(n - 1)
  }

  /** `Math.min(1000 * Math.pow(2, retry), 10000)`. */
  function RetryDelay(retry: nat): (r: nat)
    ensures BaseDelayMs <= r
    ensures r <= BaseDelayMs * Pow2(retry) && r <= MaxDelayMs
    ensures r == BaseDelayMs * Pow2(retry) || r == MaxDelayMs
  {
    if BaseDelayMs * Pow2(retry) < MaxDelayMs then BaseDelayMs * Pow2(retry) else MaxDelayMs
  }

  /** A failed attempt is retried only on a connection timeout and only while
      fewer than five retries have been made. */
  predicate ShouldRetry(message: string, retry: nat)
  {
    Contains(message, TimeoutSignature) && retry < MaxEntries
  }

  /** A timeout message is retried while the retry count is below five, and
      a message without the timeout code is never retried. */
  lemma ShouldRetryExamples()
    ensures ShouldRetry("Error: " + TimeoutSignature, 4)
    ensures !ShouldRetry("Error: " + TimeoutSignature, 5)
    ensures !ShouldRetry("Could not connect", 0)
  {
    var m := "Error: " + TimeoutSignature;
    assert m[7..7 + |TimeoutSignature|] == TimeoutSignature;
    assert OccursAt(m, TimeoutSignature, 7);
  }

  /** The run of `attemptLogin(retry)`, the outcome of the attempt made with
      retry count `n` being `outcome(n)`. */
  function LoginFrom(outcome: nat -> LoginOutcome, retry: nat): (r: LoginTrace)
    requires retry <= MaxEntries
    ensures r.attempts >= 1
    ensures r.shownError.Some? ==> StartsWith(r.shownError.value, LoginErrorPrefix)
    decreases MaxEntries - retry
  {
    match outcome(retry)
    case LoggedIn => LoginTrace([], 1, None)
    case LoginFailed(message) =>
      if ShouldRetry(message, retry) then
        var rest := LoginFrom(outcome, retry + 1);
        LoginTrace([RetryDelay(retry)] + rest.delays, rest.attempts + 1, rest.shownError)
      else LoginTrace([], 1, Some(LoginErrorPrefix + message))
  }

  /** From `attemptLogin(retry)` at most `6 - retry` attempts are made, with
      one delay between each two. */
  lemma {:induction false} LoginAttempts(outcome: nat -> LoginOutcome, retry: nat)
    requires retry <= MaxEntries
    ensures var t := LoginFrom(outcome, retry);
      1 <= t.attempts <= MaxEntries + 1 - retry && |t.delays| == t.attempts - 1
    decreases MaxEntries - retry
  {
    if outcome(retry).LoginFailed? && ShouldRetry(outcome(retry).message, retry) {
      LoginAttempts(outcome, retry + 1);
    }
  }

  /** An attempt that calls for a retry waits, then continues with the next
      retry count. */
  lemma LoginStep(outcome: nat -> LoginOutcome, retry: nat)
    requires retry <= MaxEntries
    requires outcome(retry).LoginFailed? && ShouldRetry(outcome(retry).message, retry)
    ensures retry + 1 <= MaxEntries
    ensures var rest := LoginFrom(outcome, retry + 1);
      LoginFrom(outcome, retry) == LoginTrace([RetryDelay(retry)] + rest.delays, rest.attempts + 1, rest.shownError)
  {
  }

  /** An attempt that calls for no retry is the last one. */
  lemma LoginStop(outcome: nat -> LoginOutcome, retry: nat)
    requires retry <= MaxEntries
    requires !(outcome(retry).LoginFailed? && ShouldRetry(outcome(retry).message, retry))
    ensures LoginFrom(outcome, retry) ==
      if outcome(retry).LoggedIn? then LoginTrace([], 1, None)
      else LoginTrace([], 1, Some(LoginErrorPrefix + outcome(retry).message))
  {
  }

  /** The `i`-th of `delays` is `RetryDelay` of retry count `retry + i`. */
  predicate ScheduledFrom(delays: seq<nat>, retry: nat) {
    forall i :: 0 <= i < |delays| ==> delays[i] == RetryDelay(retry + i)
  }

  /** A schedule that starts at retry count `retry + 1`, with the delay for
      `retry` put in front, starts at `retry`. */
  lemma ShiftDelays(delays: seq<nat>, rest: seq<nat>, retry: nat)
    requires delays == [RetryDelay(retry)] + rest
    requires ScheduledFrom(rest, retry + 1)
    ensures ScheduledFrom(delays, retry)
  {
    forall i | 1 <= i < |delays| ensures delays[i] == RetryDelay(retry + i) {
      assert delays[i] == rest[i - 1];
      assert retry + 1 + (i - 1) == retry + i;
    }
  }

  /** The `i`-th delay is `RetryDelay` of the retry count it follows. */
  lemma {:induction false} LoginDelays(outcome: nat -> LoginOutcome, retry: nat)
    requires retry <= MaxEntries
    ensures ScheduledFrom(LoginFrom(outcome, retry).delays, retry)
    decreases MaxEntries - retry
  {
    if outcome(retry).LoginFailed? && ShouldRetry(outcome(retry).message, retry) {
      LoginStep(outcome, retry);
      LoginDelays(outcome, retry + 1);
      ShiftDelays(LoginFrom(outcome, retry).delays, LoginFrom(outcome, retry + 1).delays, retry);
    }
  }

  /** Every attempt but the last failed with a message that called for a
      retry. */
  lemma {:induction false} LoginRetried(outcome: nat -> LoginOutcome, retry: nat)
    requires retry <= MaxEntries
    ensures var t := LoginFrom(outcome, retry);
      forall n :: retry <= n < retry + t.attempts - 1 ==>
        outcome(n).LoginFailed? && ShouldRetry(outcome(n).message, n)
    decreases MaxEntries - retry
  {
    if outcome(retry).LoginFailed? && ShouldRetry(outcome(retry).message, retry) {
      LoginRetried(outcome, retry + 1);
      var t := LoginFrom(outcome, retry);
    }
  }

  /** The run `t` from retry count `retry` ends with its last attempt: no
      error when that attempt succeeded, its message shown when it failed. */
  predicate EndsWithLast(outcome: nat -> LoginOutcome, retry: nat, t: LoginTrace) {
    && t.attempts >= 1
    && var last := outcome(retry + t.attempts - 1);
      && (t.shownError.None? <==> last.LoggedIn?)
      && (t.shownError.Some? ==> t.shownError.value == LoginErrorPrefix + last.message)
  }

  /** The run ends with the last attempt: no error when it succeeded, its
      message shown when it failed. */
  lemma {:induction false} LoginEnds(outcome: nat -> LoginOutcome, retry: nat)
    requires retry <= MaxEntries
    ensures EndsWithLast(outcome, retry, LoginFrom(outcome, retry))
    decreases MaxEntries - retry
  {
    if outcome(retry).LoginFailed? && ShouldRetry(outcome(retry).message, retry) {
      LoginStep(outcome, retry);
      LoginEnds(outcome, retry + 1);
      EndsShift(outcome, retry, LoginFrom(outcome, retry), LoginFrom(outcome, retry + 1));
    } else {
      LoginStop(outcome, retry);
    }
  }

  /** A run that waits and continues ends where its continuation ends. */
  lemma EndsShift(outcome: nat -> LoginOutcome, retry: nat, t: LoginTrace, rest: LoginTrace)
    requires t.attempts == rest.attempts + 1 && t.shownError == rest.shownError
    requires EndsWithLast(outcome, retry + 1, rest)
    ensures EndsWithLast(outcome, retry, t)
  {
    assert retry + t.attempts - 1 == (retry + 1) + rest.attempts - 1;
  }

  /** The last of the `t.attempts` attempts made from retry count `retry`
      either succeeded or failed with a message that called for no retry. */
  predicate StopsWithoutRetry(outcome: nat -> LoginOutcome, retry: nat, t: LoginTrace) {
    && t.attempts >= 1
    && var last := retry + t.attempts - 1;
      outcome(last).LoginFailed? ==> !ShouldRetry(outcome(last).message, last)
  }

  /** A run stops at a failed attempt only when that failure called for no
      retry. */
  lemma {:induction false} LoginStopsWithoutRetry(outcome: nat -> LoginOutcome, retry: nat)
    requires retry <= MaxEntries
    ensures StopsWithoutRetry(outcome, retry, LoginFrom(outcome, retry))
    decreases MaxEntries - retry
  {
    if outcome(retry).LoginFailed? && ShouldRetry(outcome(retry).message, retry) {
      LoginStep(outcome, retry);
      LoginStopsWithoutRetry(outcome, retry + 1);
      StopsShift(outcome, retry, LoginFrom(outcome, retry), LoginFrom(outcome, retry + 1));
    } else {
      LoginStop(outcome, retry);
      StopsHere(outcome, retry, LoginFrom(outcome, retry));
    }
  }

  lemma StopsShift(outcome: nat -> LoginOutcome, retry: nat, t: LoginTrace, rest: LoginTrace)
    requires t.attempts == rest.attempts + 1 && rest.attempts >= 1
    requires StopsWithoutRetry(outcome, retry + 1, rest)
    ensures StopsWithoutRetry(outcome, retry, t)
  {
    assert retry + t.attempts - 1 == (retry + 1) + rest.attempts - 1;
  }

  lemma StopsHere(outcome: nat -> LoginOutcome, retry: nat, t: LoginTrace)
    requires t.attempts == 1
    requires !(outcome(retry).LoginFailed? && ShouldRetry(outcome(retry).message, retry))
    ensures StopsWithoutRetry(outcome, retry, t)
  {
    assert retry + t.attempts - 1 == retry;
  }

  /** The delays are 1000, 2000, 4000, 8000 ms, then capped at 10000 ms. */
  lemma RetryDelaySchedule()
    ensures RetryDelay(0) == 1000 && RetryDelay(1) == 2000 && RetryDelay(2) == 4000
    ensures RetryDelay(3) == 8000 && RetryDelay(4) == 10000
  {
    assert Pow2(4) == 16;
  }

  /** Five timeouts in a row are retried after 1, 2, 4, 8 and 10 seconds; a
      sixth failure shows its error instead of retrying. */
  lemma PersistentTimeouts(outcome: nat -> LoginOutcome)
    requires forall n :: outcome(n).LoginFailed? && Contains(outcome(n).message, TimeoutSignature)
    ensures LoginFrom(outcome, 0) ==
      LoginTrace([1000, 2000, 4000, 8000, 10000], 6, Some(LoginErrorPrefix + outcome(5).message))
  {
    RetryDelaySchedule();
    var shown := Some(LoginErrorPrefix + outcome(5).message);
    assert LoginFrom(outcome, 5) == LoginTrace([], 1, shown);
    assert LoginFrom(outcome, 4) == LoginTrace([10000], 2, shown);
    assert LoginFrom(outcome, 3) == LoginTrace([8000, 10000], 3, shown);
    assert LoginFrom(outcome, 2) == LoginTrace([4000, 8000, 10000], 4, shown);
    assert LoginFrom(outcome, 1) == LoginTrace([2000, 4000, 8000, 10000], 5, shown);
  }

  /** `t` preceded by the delays already waited in earlier attempts. */
  function Resumed(delays: seq<nat>, t: LoginTrace): LoginTrace {
    LoginTrace(delays + t.delays, |delays| + t.attempts, t.shownError)
  }

  lemma ResumedRetry(outcome: nat -> LoginOutcome, retry: nat, delays: seq<nat>)
    requires retry <= MaxEntries
    requires outcome(retry).LoginFailed? && ShouldRetry(outcome(retry).message, retry)
    ensures Resumed(delays, LoginFrom(outcome, retry)) ==
      Resumed(delays + [RetryDelay(retry)], LoginFrom(outcome, retry + 1))
  {
    var rest := LoginFrom(outcome, retry + 1);
    assert delays + ([RetryDelay(retry)] + rest.delays) == (delays + [RetryDelay(retry)]) + rest.delays;
  }

  /** `attemptLogin(0)` and the retries it schedules, as one loop: each
      failure is either retried after its delay or ends the run with the error
      shown; a success ends it without one. */
  method Login(outcome: nat -> LoginOutcome) returns (trace: LoginTrace)
    ensures trace == LoginFrom(outcome, 0)
  {
    var retry := 0;
    var delays: seq<nat> := [];
    var done := false;
    trace := LoginTrace([], 0, None);
    assert Resumed(delays, LoginFrom(outcome, 0)) == LoginFrom(outcome, 0);
    while !done
      invariant retry <= MaxEntries && |delays| == retry
      invariant !done ==> Resumed(delays, LoginFrom(outcome, retry)) == LoginFrom(outcome, 0)
      invariant done ==> trace == LoginFrom(outcome, 0)
      decreases if done then 0 else 1, MaxEntries - retry
    {
      match outcome(retry) {
        case LoggedIn =>
          trace := LoginTrace(delays, retry + 1, None);
          assert delays + [] == delays;
          done := true;
        case LoginFailed(message) =>
          if ShouldRetry(message, retry) {
            ResumedRetry(outcome, retry, delays);
            delays := delays + [RetryDelay(retry)];
            retry := retry + 1;
          } else {
            trace := LoginTrace(delays, retry + 1, Some(LoginErrorPrefix + message));
            assert delays + [] == delays;
            done := true;
          }
      }
    }
  }
}
