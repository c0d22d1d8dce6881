/** Worked examples: the names, request parameters and merged configs the
    converter produces for small inputs. The `change-case` results they
    rely on are stated as preconditions. */
module Scenarios {
  import opened Seqs
  import opened JsStrings
  import opened Swagger
  import opened Definitions
  import opened Naming
  import opened Events
  import opened Merge

  /** A parameter whose dot-case form is `a.b` abbreviates to the first
      three characters of each piece, pascal-cased. */
  lemma AbbreviateTwoPieces(c: CaseConversions, name: string, a: string, b: string)
    requires c.dotCase(name) == a + "." + b
    requires '.' !in a && '.' !in b
    ensures Abbreviate(c, name) == c.pascalCase(Take(a, 3)) + c.pascalCase(Take(b, 3))
  {
    SplitCons(a, '.', b);
    SplitNoSep(b, '.');
    var pieces := Map((piece: string) => c.pascalCase(Take(piece, 3)), [a, b]);
    assert Concat(pieces[1..]) == pieces[1];
  }

  /** The condition tokens of a path with one parameter. */
  lemma OneCondition(c: CaseConversions, segs: seq<Segment>, n: string)
    requires ParamNames(segs) == [n]
    ensures Concat(Conditions(c, segs)) == "With" + Abbreviate(c, n)
  {
    var conds := Conditions(c, segs);
    assert conds == ["With" + Abbreviate(c, n)];
  }

  /** The condition tokens of a path with two parameters: only the first
      carries `With`. */
  lemma TwoConditions(c: CaseConversions, segs: seq<Segment>, n1: string, n2: string)
    requires ParamNames(segs) == [n1, n2]
    ensures Concat(Conditions(c, segs)) == "With" + Abbreviate(c, n1) + Abbreviate(c, n2)
  {
    var conds := Conditions(c, segs);
    assert |conds| == 2 && conds[0] == "With" + Abbreviate(c, n1);
    assert conds[1] == "" + Abbreviate(c, n2) == Abbreviate(c, n2);
    assert conds[1..] == [Abbreviate(c, n2)];
  }

  /** The derived name assembled from a path's resource and condition
      tokens. */
  lemma NameFromTokens(d: Descriptor, options: Options, c: CaseConversions, segs: seq<Segment>,
                       resources: string, conditions: string)
    requires !UsesOperationId(d, options) && !options.basePath
    requires PathSegments(d.path) == segs
    requires Concat(Map(c.pascalCase, LastLiteralRun(segs))) == resources
    requires Concat(Conditions(c, segs)) == conditions
    ensures FunctionName(d, options, c) == d.httpMethod + resources + conditions
  {
  }

  lemma OrderItemsSegments()
    ensures PathSegments("/orders/{orderId}/items") == [Literal("orders"), Param("orderId"), Literal("items")]
  {
    var parts := ["orders", "{orderId}", "items"];
    assert parts[1..] == ["{orderId}", "items"] && parts[1..][1..] == ["items"];
    assert Join(parts, '/') == "orders" + "/" + ("{orderId}" + "/" + "items");
    assert "/orders/{orderId}/items" == "/" + ("orders" + "/" + ("{orderId}" + "/" + "items"));
    assert forall k :: 0 <= k < |parts| ==> |parts[k]| > 0 && '/' !in parts[k];
    RootedPathSegments(parts);
    ClassifyOrderItems();
  }

  lemma ClassifyOrderItems()
    ensures Map(Classify, ["orders", "{orderId}", "items"]) == [Literal("orders"), Param("orderId"), Literal("items")]
  {
    assert !IsParamText("orders") && !IsParamText("items");
    assert IsParamText("{orderId}");
    assert "{orderId}"[1..8] == "orderId";
  }

  lemma OrderItemsRun()
    ensures LastLiteralRun([Literal("orders"), Param("orderId"), Literal("items")]) == ["items"]
    ensures ParamNames([Literal("orders"), Param("orderId"), Literal("items")]) == ["orderId"]
  {
  }

  /** The conditions of a path whose only parameter is `orderId`. */
  lemma OrderIdConditions(c: CaseConversions, segs: seq<Segment>)
    requires ParamNames(segs) == ["orderId"]
    requires c.dotCase("orderId") == "order.id"
    requires c.pascalCase("ord") == "Ord" && c.pascalCase("id") == "Id"
    ensures Concat(Conditions(c, segs)) == "WithOrdId"
  {
    assert "With" + ("Ord" + "Id") == "WithOrdId";
    assert Take("order", 3) == "ord" && Take("id", 3) == "id";
    AbbreviateTwoPieces(c, "orderId", "order", "id");
    OneCondition(c, segs, "orderId");
  }

  /** The resource and condition tokens of the segments of
      `/orders/{orderId}/items`. */
  lemma OrderItemsTokens(c: CaseConversions, segs: seq<Segment>)
    requires segs == [Literal("orders"), Param("orderId"), Literal("items")]
    requires c.pascalCase("items") == "Items"
    requires c.dotCase("orderId") == "order.id"
    requires c.pascalCase("ord") == "Ord" && c.pascalCase("id") == "Id"
    ensures Concat(Map(c.pascalCase, LastLiteralRun(segs))) == "Items"
    ensures Concat(Conditions(c, segs)) == "WithOrdId"
  {
    OrderItemsRun();
    OrderIdConditions(c, segs);
    assert Map(c.pascalCase, ["items"]) == ["Items"];
  }

  /** `post /orders/{orderId}/items`: the literal after the last parameter
      is the resource, and `orderId` abbreviates to `OrdId`. */
  lemma OrderItemsName(c: CaseConversions, options: Options, d: Descriptor)
    requires d.path == "/orders/{orderId}/items" && d.httpMethod == "post"
    requires c.pascalCase("items") == "Items"
    requires c.dotCase("orderId") == "order.id"
    requires c.pascalCase("ord") == "Ord" && c.pascalCase("id") == "Id"
    requires !options.operationId && !options.basePath
    ensures FunctionName(d, options, c) == "postItemsWithOrdId"
  {
    assert "post" + "Items" + "WithOrdId" == "postItemsWithOrdId";
    assert FunctionName(d, options, c) == d.httpMethod + "Items" + "WithOrdId" by {
      var segs := [Literal("orders"), Param("orderId"), Literal("items")];
      OrderItemsSegments();
      OrderItemsTokens(c, segs);
      NameFromTokens(d, options, c, segs, "Items", "WithOrdId");
    }
  }

  lemma JoinFour(a: string, b: string, c: string, d: string, sep: char)
    ensures Join([a, b, c, d], sep) == a + [sep] + b + [sep] + c + [sep] + d
  {
    assert [a, b, c, d][1..] == [b, c, d] && [b, c, d][1..] == [c, d] && [c, d][1..] == [d];
    assert Join([c, d], sep) == c + [sep] + d;
    assert Join([b, c, d], sep) == b + [sep] + (c + [sep] + d);
  }

  lemma UserOrdersJoin(parts: seq<string>)
    requires parts == ["users", "{userId}", "orders", "{orderStatus}"]
    ensures "/users/{userId}/orders/{orderStatus}" == "/" + Join(parts, '/')
  {
    JoinFour("users", "{userId}", "orders", "{orderStatus}", '/');
    assert "/users/{userId}/orders/{orderStatus}"
           == "/" + ("users" + "/" + "{userId}" + "/" + "orders" + "/" + "{orderStatus}");
  }

  lemma UserOrdersSegments()
    ensures PathSegments("/users/{userId}/orders/{orderStatus}")
            == [Literal("users"), Param("userId"), Literal("orders"), Param("orderStatus")]
  {
    var parts := ["users", "{userId}", "orders", "{orderStatus}"];
    UserOrdersJoin(parts);
    assert forall k :: 0 <= k < |parts| ==> |parts[k]| > 0 && '/' !in parts[k];
    RootedPathSegments(parts);
    ClassifyUserOrders();
  }

  lemma ClassifyUserOrders()
    ensures Map(Classify, ["users", "{userId}", "orders", "{orderStatus}"])
            == [Literal("users"), Param("userId"), Literal("orders"), Param("orderStatus")]
  {
    assert !IsParamText("users") && !IsParamText("orders");
    assert IsParamText("{userId}") && IsParamText("{orderStatus}");
    assert "{userId}"[1..7] == "userId";
    assert "{orderStatus}"[1..12] == "orderStatus";
  }

  lemma UserOrdersRun()
    ensures LastLiteralRun([Literal("users"), Param("userId"), Literal("orders"), Param("orderStatus")]) == ["orders"]
    ensures ParamNames([Literal("users"), Param("userId"), Literal("orders"), Param("orderStatus")])
            == ["userId", "orderStatus"]
  {
    var segs := [Literal("users"), Param("userId"), Literal("orders"), Param("orderStatus")];
    assert segs[..3] == [Literal("users"), Param("userId"), Literal("orders")];
    assert segs[..3][..2] == [Literal("users"), Param("userId")];
    assert TrailingLiterals(segs[..3][..2]) == [];
  }

  lemma UserIdAbbreviation(c: CaseConversions)
    requires c.dotCase("userId") == "user.id"
    requires c.pascalCase("use") == "Use" && c.pascalCase("id") == "Id"
    ensures Abbreviate(c, "userId") == "UseId"
  {
    assert Take("user", 3) == "use" && Take("id", 3) == "id";
    AbbreviateTwoPieces(c, "userId", "user", "id");
  }

  lemma OrderStatusAbbreviation(c: CaseConversions)
    requires c.dotCase("orderStatus") == "order.status"
    requires c.pascalCase("ord") == "Ord" && c.pascalCase("sta") == "Sta"
    ensures Abbreviate(c, "orderStatus") == "OrdSta"
  {
    assert Take("order", 3) == "ord" && Take("status", 3) == "sta";
    AbbreviateTwoPieces(c, "orderStatus", "order", "status");
  }

  lemma ClassifyOrdersId()
    ensures Map(Classify, ["orders", "{id}"]) == [Literal("orders"), Param("id")]
  {
    assert !IsParamText("orders") && IsParamText("{id}");
    assert "{id}"[1..3] == "id";
  }

  lemma OrdersIdSegments()
    ensures PathSegments("/orders/{id}") == [Literal("orders"), Param("id")]
  {
    var parts := ["orders", "{id}"];
    assert parts[1..] == ["{id}"];
    assert Join(parts, '/') == "orders" + "/" + "{id}";
    assert "/orders/{id}" == "/" + ("orders" + "/" + "{id}");
    assert forall k :: 0 <= k < |parts| ==> |parts[k]| > 0 && '/' !in parts[k];
    RootedPathSegments(parts);
    ClassifyOrdersId();
  }

  /** `/orders/{id}`: a literal followed by a parameter is still the last
      run of literals, so it is the resource, and the empty run after the
      parameter is not the last run. */
  lemma OrdersIdResources()
    ensures PathSegments("/orders/{id}") == [Literal("orders"), Param("id")]
    ensures Resources([Literal("orders"), Param("id")]) == ["orders"]
    ensures LastLiteralRun([Literal("orders"), Param("id")]) == ["orders"]
    ensures !IsLastRun([Literal("orders"), Param("id")], 2, 2)
  {
    OrdersIdSegments();
    var segs := [Literal("orders"), Param("id")];
    assert Resources(segs) == ["orders"] by {
      assert ResourceStep([], segs, 0) == ["orders"];
      assert ResourceStep(["orders"], segs, 1) == ["orders"];
    }
    ResourcesIsLastLiteralRun(segs);
    assert !segs[0].Param?;
  }

  /** The conditions of a path whose parameters are `userId` then
      `orderStatus`. */
  lemma UserOrdersConditions(c: CaseConversions, segs: seq<Segment>)
    requires ParamNames(segs) == ["userId", "orderStatus"]
    requires c.dotCase("userId") == "user.id" && c.dotCase("orderStatus") == "order.status"
    requires c.pascalCase("use") == "Use" && c.pascalCase("id") == "Id"
    requires c.pascalCase("ord") == "Ord" && c.pascalCase("sta") == "Sta"
    ensures Concat(Conditions(c, segs)) == "WithUseIdOrdSta"
  {
    assert "With" + "UseId" + "OrdSta" == "WithUseIdOrdSta";
    UserIdAbbreviation(c);
    OrderStatusAbbreviation(c);
    TwoConditions(c, segs, "userId", "orderStatus");
  }

  /** The resource and condition tokens of the segments of
      `/users/{userId}/orders/{orderStatus}`. */
  lemma UserOrdersTokens(c: CaseConversions, segs: seq<Segment>)
    requires segs == [Literal("users"), Param("userId"), Literal("orders"), Param("orderStatus")]
    requires c.pascalCase("orders") == "Orders"
    requires c.dotCase("userId") == "user.id" && c.dotCase("orderStatus") == "order.status"
    requires c.pascalCase("use") == "Use" && c.pascalCase("id") == "Id"
    requires c.pascalCase("ord") == "Ord" && c.pascalCase("sta") == "Sta"
    ensures Concat(Map(c.pascalCase, LastLiteralRun(segs))) == "Orders"
    ensures Concat(Conditions(c, segs)) == "WithUseIdOrdSta"
  {
    UserOrdersRun();
    UserOrdersConditions(c, segs);
    assert Map(c.pascalCase, ["orders"]) == ["Orders"];
  }

  /** `get /users/{userId}/orders/{orderStatus}`: the literal before the
      first parameter is not a resource, and each parameter contributes one
      abbreviation per dot-case piece. */
  lemma UserOrdersName(c: CaseConversions, options: Options, d: Descriptor)
    requires d.path == "/users/{userId}/orders/{orderStatus}" && d.httpMethod == "get"
    requires c.pascalCase("orders") == "Orders"
    requires c.dotCase("userId") == "user.id" && c.dotCase("orderStatus") == "order.status"
    requires c.pascalCase("use") == "Use" && c.pascalCase("id") == "Id"
    requires c.pascalCase("ord") == "Ord" && c.pascalCase("sta") == "Sta"
    requires !options.operationId && !options.basePath
    ensures FunctionName(d, options, c) == "getOrdersWithUseIdOrdSta"
  {
    assert "get" + "Orders" + "WithUseIdOrdSta" == "getOrdersWithUseIdOrdSta";
    assert FunctionName(d, options, c) == d.httpMethod + "Orders" + "WithUseIdOrdSta" by {
      var segs := [Literal("users"), Param("userId"), Literal("orders"), Param("orderStatus")];
      UserOrdersSegments();
      UserOrdersTokens(c, segs);
      NameFromTokens(d, options, c, segs, "Orders", "WithUseIdOrdSta");
    }
  }

  /** Tag `api-Users` under API prefix `api`: the prefix and the dash go,
      the rest is param-cased, and a service prefix is put in front. */
  lemma UsersServiceName(c: CaseConversions, options: Options, op: Operation)
    requires op.tags == Some(["api-Users"]) && options.apiPrefix == "api"
    requires c.paramCase("Users") == "users"
    ensures IsTarget(op, options.apiPrefix)
    ensures options.servicePrefix == "" ==> ServiceName(op, options, c) == "users"
    ensures options.servicePrefix == "svc" ==> ServiceName(op, options, c) == "svc-users"
  {
    IsTargetIffPrefixedTag(op, options.apiPrefix);
    assert "api" <= "api-Users";
    assert Drop("api-Users", 4) == "Users";
  }

  /** Only required path parameters become request parameters; an
      operation without any gets no `request` block. */
  lemma RequestParametersExample(op: Operation)
    requires op.parameters == [Parameter("id", "path", true), Parameter("q", "query", true), Parameter("v", "path", false)]
    ensures ExtractParameters(op) == Some(RequestParameters(["id"]))
    ensures ExtractParameters(op.(parameters := op.parameters[1..])).None?
  {
    var ps := op.parameters;
    var p1, p2 := ps[..1], ps[..2];
    assert p1[..|p1| - 1] == [] && p1[|p1| - 1] == ps[0] && IsRequiredPathParam(ps[0]);
    var prev := CollectPathParams(p1[..|p1| - 1]);
    assert prev == ([], 0);
    assert ps[0].name !in prev.0 && prev.0 + [ps[0].name] == ["id"];
    assert CollectPathParams(p1) == (["id"], 1);
    assert p2[..|p2| - 1] == p1 && p2[|p2| - 1] == ps[1] && !IsRequiredPathParam(ps[1]);
    assert CollectPathParams(p2) == (["id"], 1);
    assert ps[..|ps| - 1] == p2 && !IsRequiredPathParam(ps[2]);
    assert CollectPathParams(ps) == (["id"], 1);
    var rest := ps[1..];
    assert !IsRequiredPathParam(rest[0]) && !IsRequiredPathParam(rest[1]);
  }

  predicate IsMergeInput(configs: seq<ServiceConfig>, h: string, g: FunctionDef, e1: HttpEvent, e3: HttpEvent)
  {
    configs == [
      ServiceConfig("users", [("getUsers", FunctionDef(h, [e1]))]),
      ServiceConfig("orders", [("getOrders", g)]),
      ServiceConfig("users", [("getUsers", FunctionDef(h, [e3]))])]
  }

  lemma MergeExampleNames(configs: seq<ServiceConfig>, h: string, g: FunctionDef, e1: HttpEvent, e3: HttpEvent)
    requires IsMergeInput(configs, h, g, e1, e3)
    ensures ServiceNames(configs) == ["users", "orders"]
  {
    assert "users" != "orders";
    var p1, p2 := configs[..1], configs[..2];
    assert ServiceNames(p1) == ["users"] by {
      assert p1[..|p1| - 1] == [] && p1[|p1| - 1].service == "users";
    }
    assert ServiceNames(p2) == ["users", "orders"] by {
      assert p2[..|p2| - 1] == p1 && p2[|p2| - 1].service == "orders";
      assert "orders" !in ServiceNames(p1);
    }
    assert configs[..|configs| - 1] == p2 && configs[|configs| - 1].service == "users";
  }

  lemma MergeExampleUsers(configs: seq<ServiceConfig>, h: string, g: FunctionDef, e1: HttpEvent, e3: HttpEvent)
    requires IsMergeInput(configs, h, g, e1, e3)
    ensures AllDistinctKeys(configs)
    ensures ServiceFunctions(configs, "users") == [("getUsers", FunctionDef(h, [e1, e3]))]
  {
    assert "users" != "orders";
    var p1, p2 := configs[..1], configs[..2];
    assert p1[..|p1| - 1] == [] && p2[..|p2| - 1] == p1 && configs[..|configs| - 1] == p2;
    var u1 := [("getUsers", FunctionDef(h, [e1]))];
    var u3 := [("getUsers", FunctionDef(h, [e3]))];
    assert MergeEntry([], "getUsers", FunctionDef(h, [e1])) == u1;
    assert DeepMerge([], u1) == DeepMerge(u1, u1[1..]) == u1;
    assert ServiceFunctions(p1, "users") == u1;
    assert ServiceFunctions(p2, "users") == u1;
    assert u1[1..] == [] && u1[0].1.events + [e3] == [e1, e3];
    assert MergeEntry(u1, "getUsers", FunctionDef(h, [e3])) == [("getUsers", FunctionDef(h, [e1, e3]))];
    assert DeepMerge(u1, u3) == DeepMerge(MergeEntry(u1, "getUsers", FunctionDef(h, [e3])), u3[1..]);
  }

  lemma MergeExampleOrders(configs: seq<ServiceConfig>, h: string, g: FunctionDef, e1: HttpEvent, e3: HttpEvent)
    requires IsMergeInput(configs, h, g, e1, e3)
    ensures AllDistinctKeys(configs)
    ensures ServiceFunctions(configs, "orders") == [("getOrders", g)]
  {
    assert "users" != "orders";
    var p1, p2 := configs[..1], configs[..2];
    assert p1[..|p1| - 1] == [] && p2[..|p2| - 1] == p1 && configs[..|configs| - 1] == p2;
    var o2 := [("getOrders", g)];
    assert ServiceFunctions(p1, "orders") == [];
    assert MergeEntry([], "getOrders", g) == o2;
    assert DeepMerge([], o2) == DeepMerge(o2, o2[1..]) == o2;
    assert ServiceFunctions(p2, "orders") == o2;
  }

  /** Two fragments of service `users` and one of `orders`: two configs in
      first-seen order, the `users` function carrying both events. */
  lemma MergeExample(configs: seq<ServiceConfig>, h: string, g: FunctionDef, e1: HttpEvent, e3: HttpEvent)
    requires IsMergeInput(configs, h, g, e1, e3)
    ensures AllDistinctKeys(configs)
    ensures MergeConfigs(configs) == [
      ServiceConfig("users", [("getUsers", FunctionDef(h, [e1, e3]))]),
      ServiceConfig("orders", [("getOrders", g)])]
  {
    MergeExampleNames(configs, h, g, e1, e3);
    MergeExampleUsers(configs, h, g, e1, e3);
    MergeExampleOrders(configs, h, g, e1, e3);
  }
}
