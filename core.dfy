/**
 * The controller action table and dispatcher (core/controller_mapper.go).
 *
 * Reflection is replaced by explicit method-name lists: a controller is the
 * list of its method names in the order reflection reports them, and the base
 * glaze.Controller is likewise given by its method-name list. Invoking an
 * action or an error handler appends an event to a trace. The foreign string
 * conversions SpinalToCamel and CamelToSpinal are function parameters about
 * which nothing is assumed.
 */
module Core {
  import opened Common

  /** Identity of an http.ResponseWriter. */
  type Writer = nat
  /** Identity of an *http.Request. */
  type Request = nat
  /** Identity of a custom error-handler function. */
  type HandlerId = nat

  const StatusNotFound: int := 404
  const StatusInternalServerError: int := 500
  const DefaultErrorBody: string := "Error 404 - Could not find the requested page"

  /** What a call to HandleIfPossible does, one entry per invocation. */
  datatype Event =
    | ActionCalled(controller: string, action: string, w: Writer, r: Request)
    | CustomErrorHandlerCalled(handler: HandlerId, w: Writer, r: Request, status: int)
    | HttpError(w: Writer, body: string, code: int)

  // ---------------------------------------------------------------------------
  // contains and methodsOfStruct

  method Contains(s: seq<string>, e: string) returns (found: bool)
    ensures found <==> e in s
  {
    for i := 0 to |s|
      invariant e !in s[..i]
    {
      if s[i] == e {
        return true;
      }
    }
    assert s[..|s|] == s;
    return false;
  }

  /** A method name reflection reports is kept as an action when this holds. */
  predicate Kept(name: string, exclude: seq<string>) {
    name != "" && name !in exclude
  }

  /** The reference definition of methodsOfStruct: the kept names, in order. */
  function Filtered(methods: seq<string>, exclude: seq<string>): seq<string>
    decreases |methods|
  {
    if methods == [] then []
    else
      var last := methods[|methods| - 1];
      Filtered(methods[..|methods| - 1], exclude) + (if Kept(last, exclude) then [last] else [])
  }

  /** `a` can be obtained from `b` by deleting elements. */
  predicate IsSubsequence(a: seq<string>, b: seq<string>)
    decreases |b|
  {
    a == [] ||
    (b != [] &&
     (IsSubsequence(a, b[..|b| - 1]) ||
      (a[|a| - 1] == b[|b| - 1] && IsSubsequence(a[..|a| - 1], b[..|b| - 1]))))
  }

  lemma {:induction false} FilteredMembers(methods: seq<string>, exclude: seq<string>)
    ensures forall x :: x in Filtered(methods, exclude) <==> x in methods && Kept(x, exclude)
    decreases |methods|
  {
    if methods != [] {
      var init := methods[..|methods| - 1];
      FilteredMembers(init, exclude);
      assert methods == init + [methods[|methods| - 1]];
    }
  }

  lemma {:induction false} FilteredIsSubsequence(methods: seq<string>, exclude: seq<string>)
    ensures IsSubsequence(Filtered(methods, exclude), methods)
    decreases |methods|
  {
    if methods != [] {
      var init := methods[..|methods| - 1];
      var last := methods[|methods| - 1];
      var f := Filtered(init, exclude);
      FilteredIsSubsequence(init, exclude);
      if Kept(last, exclude) {
        var r := f + [last];
        assert r[|r| - 1] == last && r[..|r| - 1] == f;
      } else {
        assert Filtered(methods, exclude) == f;
      }
    }
  }

  /** Filtering keeps every kept name and their order: nothing kept is dropped. */
  lemma {:induction false} FilteredOfAllKept(methods: seq<string>, exclude: seq<string>)
    requires forall i :: 0 <= i < |methods| ==> Kept(methods[i], exclude)
    ensures Filtered(methods, exclude) == methods
    decreases |methods|
  {
    if methods != [] {
      var init := methods[..|methods| - 1];
      FilteredOfAllKept(init, exclude);
      assert Kept(methods[|methods| - 1], exclude);
      assert init + [methods[|methods| - 1]] == methods;
    }
  }

  method MethodsOfStruct(methods: seq<string>, exclude: seq<string>) returns (actions: seq<string>)
    ensures actions == Filtered(methods, exclude)
    ensures forall x :: x in actions <==> x in methods && x != "" && x !in exclude
    ensures IsSubsequence(actions, methods)
  {
    actions := [];
    var i := 0;
    while i < |methods|
      invariant 0 <= i <= |methods|
      invariant actions == Filtered(methods[..i], exclude)
    {
      var name := methods[i];
      var excluded := Contains(exclude, name);
      if name != "" && !excluded {
        actions := actions + [name];
      }
      assert methods[..i + 1][..i] == methods[..i];
      i := i + 1;
    }
    assert methods[..i] == methods;
    FilteredMembers(methods, exclude);
    FilteredIsSubsequence(methods, exclude);
  }

  // ---------------------------------------------------------------------------
  // The action table

  /** The table buildMap produces: each controller's methods minus the base's. */
  function ActionTable(controllerMap: map<string, seq<string>>, baseMethods: seq<string>): map<string, seq<string>>
  {
    var glazeMethods := Filtered(baseMethods, []);
    map c | c in controllerMap :: Filtered(controllerMap[c], glazeMethods)
  }

  lemma ActionTableProperties(controllerMap: map<string, seq<string>>, baseMethods: seq<string>)
    ensures ActionTable(controllerMap, baseMethods).Keys == controllerMap.Keys
    ensures forall c, a :: c in controllerMap && a in ActionTable(controllerMap, baseMethods)[c] ==>
              a in controllerMap[c] && a != "" && a !in baseMethods
    ensures forall c, a :: c in controllerMap && a in controllerMap[c] && a != "" && a !in baseMethods ==>
              a in ActionTable(controllerMap, baseMethods)[c]
    ensures controllerMap == map[] ==> ActionTable(controllerMap, baseMethods) == map[]
  {
    var glazeMethods := Filtered(baseMethods, []);
    FilteredMembers(baseMethods, []);
    forall c | c in controllerMap
      ensures forall a :: a in Filtered(controllerMap[c], glazeMethods) <==>
                a in controllerMap[c] && Kept(a, glazeMethods)
    {
      FilteredMembers(controllerMap[c], glazeMethods);
    }
  }

  // ---------------------------------------------------------------------------
  // The default error handler

  /** errorHandler: writes a fixed body with status 500, whatever `status` says. */
  function DefaultErrorHandler(w: Writer, r: Request, status: int): (e: Event)
    ensures e.HttpError? && e.w == w && e.code == StatusInternalServerError
  {
    HttpError(w, DefaultErrorBody, StatusInternalServerError)
  }

  lemma DefaultErrorHandlerIgnoresStatus(w: Writer, r: Request, s1: int, s2: int)
    ensures DefaultErrorHandler(w, r, s1) == DefaultErrorHandler(w, r, s2)
  {
  }

  /** mux.Vars(r)[key], which is "" for a missing key. */
  function Var(vars: map<string, string>, key: string): string {
    if key in vars then vars[key] else ""
  }

  // ---------------------------------------------------------------------------
  // Route lines of ActionMap

  function RouteLine(controller: string, action: string, camelToSpinal: string -> string): string {
    "\"/" + controller + "/" + camelToSpinal(action) + "\", " + controller + "." + action
  }

  function ControllerLines(controller: string, actions: seq<string>, camelToSpinal: string -> string): seq<string>
    decreases |actions|
  {
    if actions == [] then []
    else
      ControllerLines(controller, actions[..|actions| - 1], camelToSpinal)
        + [RouteLine(controller, actions[|actions| - 1], camelToSpinal)]
  }

  /** The lines of the controllers in `order`, one controller after another. */
  function Lines(order: seq<string>, table: map<string, seq<string>>, camelToSpinal: string -> string): seq<string>
    requires forall c :: c in order ==> c in table
    decreases |order|
  {
    if order == [] then []
    else
      var last := order[|order| - 1];
      Lines(order[..|order| - 1], table, camelToSpinal) + ControllerLines(last, table[last], camelToSpinal)
  }

  /** strings.Join */
  function Join(lines: seq<string>, sep: string): string
    decreases |lines|
  {
    if lines == [] then ""
    else if |lines| == 1 then lines[0]
    else Join(lines[..|lines| - 1], sep) + sep + lines[|lines| - 1]
  }

  /** The sum, over the controllers in `order`, of their numbers of actions. */
  function ActionCount(order: seq<string>, table: map<string, seq<string>>): nat
    requires forall c :: c in order ==> c in table
    decreases |order|
  {
    if order == [] then 0
    else ActionCount(order[..|order| - 1], table) + |table[order[|order| - 1]]|
  }

  lemma {:induction false} ControllerLinesAt(controller: string, actions: seq<string>, camelToSpinal: string -> string)
    ensures |ControllerLines(controller, actions, camelToSpinal)| == |actions|
    ensures forall i :: 0 <= i < |actions| ==>
              ControllerLines(controller, actions, camelToSpinal)[i] == RouteLine(controller, actions[i], camelToSpinal)
    decreases |actions|
  {
    if actions != [] {
      ControllerLinesAt(controller, actions[..|actions| - 1], camelToSpinal);
    }
  }

  /** Every (controller, action) pair of the table has its route line. */
  lemma {:induction false} LinesCoverTable(order: seq<string>, table: map<string, seq<string>>,
                                           camelToSpinal: string -> string, c: string, i: nat)
    requires forall k :: k in order ==> k in table
    requires c in order && i < |table[c]|
    ensures RouteLine(c, table[c][i], camelToSpinal) in Lines(order, table, camelToSpinal)
    decreases |order|
  {
    var init := order[..|order| - 1];
    var last := order[|order| - 1];
    if c == last {
      ControllerLinesAt(last, table[last], camelToSpinal);
      assert ControllerLines(last, table[last], camelToSpinal)[i] == RouteLine(c, table[c][i], camelToSpinal);
    } else {
      assert order == init + [last];
      assert c in init;
      LinesCoverTable(init, table, camelToSpinal, c, i);
    }
  }

  /** There is exactly one line per (controller, action) pair. */
  lemma {:induction false} LinesCount(order: seq<string>, table: map<string, seq<string>>, camelToSpinal: string -> string)
    requires forall k :: k in order ==> k in table
    ensures |Lines(order, table, camelToSpinal)| == ActionCount(order, table)
    decreases |order|
  {
    if order != [] {
      var last := order[|order| - 1];
      LinesCount(order[..|order| - 1], table, camelToSpinal);
      ControllerLinesAt(last, table[last], camelToSpinal);
    }
  }

  /** Joining route lines (never empty) gives "" exactly when there is no line. */
  lemma {:induction false} JoinEmpty(lines: seq<string>, sep: string)
    requires forall i :: 0 <= i < |lines| ==> lines[i] != ""
    ensures Join(lines, sep) == "" <==> lines == []
    decreases |lines|
  {
    if |lines| > 1 {
      var j := Join(lines[..|lines| - 1], sep) + sep + lines[|lines| - 1];
      assert |j| >= |lines[|lines| - 1]| > 0;
    }
  }

  /** The `n` characters of `s` from position `i`, or "" when they do not exist. */
  function Slice(s: string, i: int, n: nat): string {
    if 0 <= i && i + n <= |s| then s[i..i + n] else ""
  }

  /** `x` occurs in `s` at some position. */
  predicate Occurs(x: string, s: string) {
    exists i :: 0 <= i <= |s| - |x| && Slice(s, i, |x|) == x
  }

  /** Each joined line occurs in the joined string. */
  lemma {:induction false} JoinContains(lines: seq<string>, sep: string, k: nat)
    requires k < |lines|
    ensures Occurs(lines[k], Join(lines, sep))
    decreases |lines|
  {
    var j := Join(lines, sep);
    var x := lines[k];
    if |lines| == 1 {
      assert Slice(j, 0, |x|) == x;
    } else {
      var init := lines[..|lines| - 1];
      var prefix := Join(init, sep);
      assert j == prefix + sep + lines[|lines| - 1];
      if k == |lines| - 1 {
        var at := |prefix| + |sep|;
        assert Slice(j, at, |x|) == x;
      } else {
        JoinContains(init, sep, k);
        assert init[k] == x;
        var i :| 0 <= i <= |prefix| - |x| && Slice(prefix, i, |x|) == x;
        assert Slice(j, i, |x|) == Slice(prefix, i, |x|);
      }
    }
  }

  /** With every key enumerated, there is no action exactly when no controller has one. */
  lemma {:induction false} ActionCountZero(order: seq<string>, table: map<string, seq<string>>)
    requires forall c :: c in order ==> c in table
    ensures ActionCount(order, table) == 0 <==> forall i :: 0 <= i < |order| ==> table[order[i]] == []
    decreases |order|
  {
    if order != [] {
      ActionCountZero(order[..|order| - 1], table);
    }
  }

  // ---------------------------------------------------------------------------
  // The mapper

  class ControllerMapper {
    /** Each controller, given by the list of its method names. */
    var controllers: map<string, seq<string>>
    /** The action table; None models Go's nil map (not yet built). */
    var controllerActions: Option<map<string, seq<string>>>
    /** The exported ErrorHandler field; None is nil. */
    var errorHandler: Option<HandlerId>

    /**
     * The table lists exactly the controllers, and every listed action is a
     * method of its controller, so the reflective call always finds it.
     */
    ghost predicate Valid()
      reads this
    {
      controllerActions.Some? ==>
        && controllers.Keys == controllerActions.value.Keys
        && forall c, a :: c in controllerActions.value && a in controllerActions.value[c] ==> a in controllers[c]
    }

    /** NewControllerMapper */
    constructor (controllerMap: map<string, seq<string>>, baseMethods: seq<string>)
      ensures controllers == controllerMap
      ensures controllerActions == Some(ActionTable(controllerMap, baseMethods))
      ensures errorHandler == None
      ensures Valid()
    {
      controllers := map[];
      controllerActions := None;
      errorHandler := None;
      new;
      BuildMap(controllerMap, baseMethods);
    }

    /** The table as lookups see it: a nil map behaves as an empty one. */
    function Table(): map<string, seq<string>>
      reads this
    {
      if controllerActions.Some? then controllerActions.value else map[]
    }

    method BuildMap(controllerMap: map<string, seq<string>>, baseMethods: seq<string>)
      modifies this
      ensures old(controllerActions).Some? ==>
                controllers == old(controllers) && controllerActions == old(controllerActions)
      ensures old(controllerActions).None? ==>
                controllers == controllerMap && controllerActions == Some(ActionTable(controllerMap, baseMethods))
      ensures errorHandler == old(errorHandler)
      ensures old(controllerActions).None? ==> Valid()
      ensures old(Valid()) ==> Valid()
    {
      if controllerActions.Some? {
        return;
      }
      controllerActions := Some(map[]);
      controllers := controllerMap;
      var glazeMethods := MethodsOfStruct(baseMethods, []);
      var remaining := controllerMap.Keys;
      while remaining != {}
        invariant controllers == controllerMap && errorHandler == old(errorHandler)
        invariant controllerActions.Some?
        invariant remaining <= controllerMap.Keys
        invariant controllerActions.value.Keys == controllerMap.Keys - remaining
        invariant forall c :: c in controllerActions.value ==>
                    controllerActions.value[c] == Filtered(controllerMap[c], glazeMethods)
        decreases remaining
      {
        var c :| c in remaining;
        var actions := MethodsOfStruct(controllerMap[c], glazeMethods);
        controllerActions := Some(controllerActions.value[c := actions]);
        remaining := remaining - {c};
      }
      assert controllerActions.value == ActionTable(controllerMap, baseMethods);
      forall c, a | c in controllerActions.value && a in controllerActions.value[c]
        ensures a in controllers[c]
      {
        FilteredMembers(controllerMap[c], glazeMethods);
      }
    }

    /** The event the selected error handler produces. */
    function ErrorEvent(w: Writer, r: Request): Event
      reads this
    {
      if errorHandler.Some? then
        CustomErrorHandlerCalled(errorHandler.value, w, r, StatusNotFound)
      else
        DefaultErrorHandler(w, r, StatusNotFound)
    }

    /**
     * HandleIfPossible as written: with an unknown controller the first error
     * handler call is not followed by a return, so the handler runs twice.
     */
    method HandleIfPossible(w: Writer, r: Request, vars: map<string, string>, spinalToCamel: string -> string)
      returns (trace: seq<Event>)
      ensures var c := Var(vars, "controller");
              var a := spinalToCamel(Var(vars, "action"));
              && (c in Table() && a in Table()[c] ==> trace == [ActionCalled(c, a, w, r)])
              && (c in Table() && a !in Table()[c] ==> trace == [ErrorEvent(w, r)])
              && (Valid() && c in Table() && a in Table()[c] ==> c in controllers && a in controllers[c])
              && (c !in Table() ==> trace == [ErrorEvent(w, r), ErrorEvent(w, r)])
    {
      var controller := Var(vars, "controller");
      var action := spinalToCamel(Var(vars, "action"));
      trace := [];
      if controller !in Table() {
        if errorHandler.Some? {
          trace := trace + [CustomErrorHandlerCalled(errorHandler.value, w, r, StatusNotFound)];
        } else {
          trace := trace + [DefaultErrorHandler(w, r, StatusNotFound)];
        }
      }
      var actions := if controller in Table() then Table()[controller] else [];
      for i := 0 to |actions|
        invariant action !in actions[..i]
      {
        if actions[i] == action {
          trace := trace + [ActionCalled(controller, action, w, r)];
          return;
        }
      }
      assert actions[..|actions|] == actions;
      if errorHandler.Some? {
        trace := trace + [CustomErrorHandlerCalled(errorHandler.value, w, r, StatusNotFound)];
      } else {
        trace := trace + [DefaultErrorHandler(w, r, StatusNotFound)];
      }
    }

    /** HandleIfPossible with the evidently intended return after the first error path. */
    method HandleIfPossibleWithReturn(w: Writer, r: Request, vars: map<string, string>, spinalToCamel: string -> string)
      returns (trace: seq<Event>)
      ensures var c := Var(vars, "controller");
              var a := spinalToCamel(Var(vars, "action"));
              && (c in Table() && a in Table()[c] ==> trace == [ActionCalled(c, a, w, r)])
              && (!(c in Table() && a in Table()[c]) ==> trace == [ErrorEvent(w, r)])
    {
      var controller := Var(vars, "controller");
      var action := spinalToCamel(Var(vars, "action"));
      if controller !in Table() {
        trace := [ErrorEvent(w, r)];
        return;
      }
      var actions := Table()[controller];
      for i := 0 to |actions|
        invariant action !in actions[..i]
      {
        if actions[i] == action {
          trace := [ActionCalled(controller, action, w, r)];
          return;
        }
      }
      assert actions[..|actions|] == actions;
      trace := [ErrorEvent(w, r)];
    }

    /**
     * ActionMap: one route line per (controller, action) pair, joined by
     * newlines; `order` is the map-iteration order of the controllers, which
     * the source leaves unspecified.
     */
    method ActionMap(camelToSpinal: string -> string) returns (s: string, ghost order: seq<string>)
      ensures forall c :: c in order <==> c in Table()
      ensures Distinct(order)
      ensures s == Join(Lines(order, Table(), camelToSpinal), "\n")
      ensures s == "" <==> ActionCount(order, Table()) == 0
      ensures s == "" <==> forall c :: c in Table() ==> Table()[c] == []
      ensures forall c, i :: c in Table() && 0 <= i < |Table()[c]| ==>
                Occurs(RouteLine(c, Table()[c][i], camelToSpinal), s)
    {
      var table := Table();
      var output: seq<string> := [];
      var remaining := table.Keys;
      order := [];
      while remaining != {}
        invariant remaining <= table.Keys
        invariant forall c :: c in order <==> c in table && c !in remaining
        invariant Distinct(order)
        invariant output == Lines(order, table, camelToSpinal)
        decreases remaining
      {
        var c :| c in remaining;
        var methods := table[c];
        for i := 0 to |methods|
          invariant output == Lines(order, table, camelToSpinal) + ControllerLines(c, methods[..i], camelToSpinal)
        {
          assert methods[..i + 1][..i] == methods[..i];
          output := output + [RouteLine(c, methods[i], camelToSpinal)];
        }
        assert methods[..|methods|] == methods;
        var next := order + [c];
        assert next[..|next| - 1] == order;
        order := next;
        remaining := remaining - {c};
      }
      s := Join(output, "\n");
      LinesCount(order, table, camelToSpinal);
      forall i | 0 <= i < |output| ensures output[i] != "" {
        assert output[i] in output;
        LinesNonEmpty(order, table, camelToSpinal, output[i]);
      }
      JoinEmpty(output, "\n");
      ActionCountZero(order, table);
      forall c | c in table ensures table[c] == [] <==> forall i :: 0 <= i < |order| && order[i] == c ==> table[c] == [] {
        var k :| 0 <= k < |order| && order[k] == c;
      }
      forall c, i | c in table && 0 <= i < |table[c]|
        ensures Occurs(RouteLine(c, table[c][i], camelToSpinal), s)
      {
        LinesCoverTable(order, table, camelToSpinal, c, i);
        var k :| 0 <= k < |output| && output[k] == RouteLine(c, table[c][i], camelToSpinal);
        JoinContains(output, "\n", k);
      }
    }
  }

  lemma {:induction false} LinesNonEmpty(order: seq<string>, table: map<string, seq<string>>,
                                         camelToSpinal: string -> string, line: string)
    requires forall k :: k in order ==> k in table
    requires line in Lines(order, table, camelToSpinal)
    ensures line != ""
    decreases |order|
  {
    var init := order[..|order| - 1];
    var last := order[|order| - 1];
    if line in Lines(init, table, camelToSpinal) {
      LinesNonEmpty(init, table, camelToSpinal, line);
    } else {
      ControllerLinesAt(last, table[last], camelToSpinal);
      var cl := ControllerLines(last, table[last], camelToSpinal);
      var i :| 0 <= i < |cl| && cl[i] == line;
      assert line[0] == '"';
    }
  }

  // ---------------------------------------------------------------------------
  // Client scenarios

  /** With the source as written, an unknown controller runs the default handler twice. */
  method UnknownControllerRunsHandlerTwice() returns (trace: seq<Event>)
    ensures trace == [HttpError(7, DefaultErrorBody, StatusInternalServerError),
                      HttpError(7, DefaultErrorBody, StatusInternalServerError)]
  {
    var mapper := new ControllerMapper(map["public" := ["Index", "RenderTemplate"]], ["RenderTemplate"]);
    trace := mapper.HandleIfPossible(7, 8, map["controller" := "missing", "action" := "index"], s => s);
  }

  /** A registered action is invoked once; a missing one reaches the error handler once. */
  method PublicIndexScenario() returns (hit: seq<Event>, miss: seq<Event>)
    ensures hit == [ActionCalled("public", "Index", 1, 2)]
    ensures miss == [CustomErrorHandlerCalled(5, 1, 3, StatusNotFound)]
  {
    var mapper := new ControllerMapper(map["public" := ["Index", "RenderTemplate"]], ["RenderTemplate"]);
    assert Filtered(["RenderTemplate"], []) == ["RenderTemplate"];
    assert Filtered(["Index", "RenderTemplate"], ["RenderTemplate"]) == ["Index"];
    mapper.errorHandler := Some(5);
    var toCamel := (s: string) => if s == "index" then "Index" else s;
    hit := mapper.HandleIfPossible(1, 2, map["controller" := "public", "action" := "index"], toCamel);
    miss := mapper.HandleIfPossible(1, 3, map["controller" := "public", "action" := "missing"], toCamel);
  }
}
