/**
 * `TFLogSlogHandler`: a `slog.Handler` that forwards records to tflog.
 * The backend call is not made; `Handle` returns a description of it.
 */
module Handler {
  import opened Slog
  import opened FieldMaps
  import opened Flatten
  import opened Strings

  /** Which of the Debug/Info/Warn/Error functions of tflog is called. */
  datatype Severity = Debug | Info | Warn | Error

  /**
   * The tflog call `Handle` makes: `tflog.<Severity>(ctx, message, fields)`
   * or `tflog.Subsystem<Severity>(ctx, subsystem, message, fields)`.
   */
  datatype Call =
    | TopLevel(severity: Severity, message: string, fields: Fields)
    | InSubsystem(subsystem: string, severity: Severity, message: string, fields: Fields)

  /** The `switch record.Level`: the four named levels map to themselves, any other to Info. */
  function SeverityOf(level: Level): (s: Severity)
    ensures s == Debug <==> level == LevelDebug
    ensures s == Warn <==> level == LevelWarn
    ensures s == Error <==> level == LevelError
    ensures s == Info <==> level != LevelDebug && level != LevelWarn && level != LevelError
  {
    if level == LevelDebug then Debug
    else if level == LevelInfo then Info
    else if level == LevelWarn then Warn
    else if level == LevelError then Error
    else Info
  }

  /** The subsystem functions exactly when the subsystem name is non-empty. */
  function Dispatch(subsystem: string, record: Record, fields: Fields): (c: Call)
    ensures c.InSubsystem? <==> subsystem != ""
    ensures c.InSubsystem? ==> c.subsystem == subsystem
    ensures c.severity == SeverityOf(record.level)
    ensures c.message == record.message && c.fields == fields
  {
    if subsystem != "" then InSubsystem(subsystem, SeverityOf(record.level), record.message, fields)
    else TopLevel(SeverityOf(record.level), record.message, fields)
  }

  class TFLogSlogHandler {
    /** Attributes bound by `WithAttrs`, already nested under the groups in force then. */
    var fields: Fields
    /** Group names entered by `WithGroup`, outermost first. */
    var groups: seq<string>

    /** `WithGroup` never records the empty name. */
    ghost predicate Valid()
      reads this
    {
      "" !in groups
    }

    /** `NewSlogHandler`: no bound fields and no groups. */
    constructor ()
      ensures Valid() && fields == map[] && groups == []
    {
      fields := map[];
      groups := [];
    }

    /** Filtering is left to tflog: every level, named or not, is enabled. */
    function Enabled(level: Level): (r: bool)
      ensures r
    {
      true
    }

    /**
     * The map for one record: the bound fields, then the record's
     * attributes flattened under the handler's groups.
     */
    method RenderAdditionalFields(record: Record) returns (r: Result<Fields>)
      ensures r == AddAttrs(fields, groups, record.attrs)
    {
      var result := CopyFields(fields);
      r := AddAttrsToMap(record.attrs, result, groups);
    }

    /**
     * Render the record and choose the tflog call. The Go method returns
     * nil on every path that does not panic.
     */
    method Handle(record: Record) returns (r: Result<Call>)
      ensures r.Ok? <==> AddAttrs(fields, groups, record.attrs).Ok?
      ensures r.Ok? ==> r.value == Dispatch(Join(groups, "."), record, AddAttrs(fields, groups, record.attrs).value)
      ensures Valid() && r.Ok? ==> (r.value.InSubsystem? <==> groups != [])
    {
      var rendered := RenderAdditionalFields(record);
      if rendered.Panic? {
        return Panic;
      }
      var subsystem := Join(groups, ".");
      SubsystemEmptyIffNoGroups(groups);
      r := Ok(Dispatch(subsystem, record, rendered.value));
    }

    /**
     * A new handler with the same groups and the parent's fields with
     * `attrs` flattened into them under those groups.
     */
    method WithAttrs(attrs: seq<Attr>) returns (r: Result<TFLogSlogHandler>)
      ensures r.Ok? <==> AddAttrs(fields, groups, attrs).Ok?
      ensures r.Ok? ==> fresh(r.value)
      ensures r.Ok? ==> r.value.groups == groups && r.value.fields == AddAttrs(fields, groups, attrs).value
      ensures r.Ok? && Valid() ==> r.value.Valid()
    {
      var h := new TFLogSlogHandler();
      h.groups := groups;
      h.fields := CopyFields(fields);
      var added := AddAttrsToMap(attrs, h.fields, h.groups);
      if added.Panic? {
        return Panic;
      }
      h.fields := added.value;
      r := Ok(h);
    }

    /** The same handler for the empty name; otherwise a new one with `name` appended. */
    method WithGroup(name: string) returns (h: TFLogSlogHandler)
      ensures name == "" ==> h == this
      ensures name != "" ==> fresh(h) && h.groups == groups + [name] && h.fields == fields
      ensures Valid() ==> h.Valid()
    {
      if name == "" {
        return this;
      }
      h := new TFLogSlogHandler();
      h.groups := groups + [name];
      h.fields := CopyFields(fields);
    }
  }

  /** Since no group name is empty, the subsystem is empty exactly when no group was entered. */
  lemma SubsystemEmptyIffNoGroups(groups: seq<string>)
    ensures "" !in groups ==> (Join(groups, ".") == "" <==> groups == [])
  {
    JoinEmptyIff(groups, ".");
  }

  /** Entering a group extends the subsystem by a dot and the group name. */
  lemma WithGroupSubsystem(groups: seq<string>, name: string)
    ensures Join(groups + [name], ".") == if groups == [] then name else Join(groups, ".") + "." + name
  {
    if groups != [] {
      JoinSnoc(groups, ".", name);
    } else {
      assert groups + [name] == [name];
    }
  }

  /**
   * Binding `k=1` under the groups "a" then "b" and logging at Info puts
   * the field at ["a"]["b"]["k"] and routes to the subsystem "a.b".
   */
  method NestedGroupsExample() returns (c: Result<Call>)
    ensures c == Ok(InSubsystem("a.b", Info, "msg",
                      map["a" := Node(map["b" := Node(map["k" := Leaf(Int(1))])])]))
  {
    var root := new TFLogSlogHandler();
    var a := root.WithGroup("a");
    var ab := a.WithGroup("b");
    var path, k1 := ["a", "b"], Attr("k", Scalar(Int(1)));
    assert ab.groups == path && ab.fields == map[];
    var leaf := map["k" := Leaf(Int(1))];
    assert Scope(map[], path) == Ok(map[]) by {
      assert Scope(map[], path[1..]) == Ok(map[]);
    }
    assert Graft(map[], path, leaf) == map["a" := Node(map["b" := Node(leaf)])] by {
      assert Graft(map[], path[1..], leaf) == map["b" := Node(leaf)];
    }
    assert AddAttrs(map[], path, [k1]) == Ok(map["a" := Node(map["b" := Node(leaf)])]);
    var bound := ab.WithAttrs([k1]);
    assert Join(path, ".") == "a.b";
    c := bound.value.Handle(Record("msg", LevelInfo, []));
  }

  /**
   * Deriving a handler with a bound attribute leaves the parent without it:
   * records on the parent do not carry `x=1`, records on the child do.
   */
  method BindDoesNotReachParent() returns (onParent: Result<Call>, onChild: Result<Call>)
    ensures onParent == Ok(TopLevel(Warn, "m", map[]))
    ensures onChild == Ok(TopLevel(Warn, "m", map["x" := Leaf(Int(1))]))
  {
    var parent := new TFLogSlogHandler();
    var child := parent.WithAttrs([Attr("x", Scalar(Int(1)))]);
    onParent := parent.Handle(Record("m", LevelWarn, []));
    onChild := child.value.Handle(Record("m", LevelWarn, []));
  }
}
