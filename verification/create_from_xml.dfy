/**
 The whole of 8211createfromxml's `main()` as a function from its arguments
 and the parsed XML document to the sequence of requests it makes of the
 8211 library, ending either with the module closed or with an exit status
 of 1 and the reason.
 */
module CreateFromXml {
  import opened Text
  import opened DdfLeader
  import opened DdfFieldDefn
  import opened DdfRecords

  /** The input XML file and the output 8211 file (`NULL` when not given). */
  datatype Invocation = Invocation(input: string, output: Option<string>)

  /**
   The argument loop: the first positional argument is the input, the second
   the output, and a third one clears the input and stops the loop.
   */
  function ScanArguments(args: seq<string>, input: Option<string>, output: Option<string>)
    : (Option<string>, Option<string>)
    decreases |args|
  {
    if |args| == 0 then (input, output)
    else if input.None? then ScanArguments(args[1..], Some(args[0]), output)
    else if output.None? then ScanArguments(args[1..], input, Some(args[0]))
    else (None, output)
  }

  lemma ScanFromStart(args: seq<string>)
    ensures |args| == 0 ==> ScanArguments(args, None, None).0 == None
    ensures |args| == 1 ==> ScanArguments(args, None, None) == (Some(args[0]), None)
    ensures |args| == 2 ==> ScanArguments(args, None, None) == (Some(args[0]), Some(args[1]))
    ensures |args| >= 3 ==> ScanArguments(args, None, None).0 == None
  {
    if |args| >= 1 {
      assert ScanArguments(args, None, None) == ScanArguments(args[1..], Some(args[0]), None);
    }
    if |args| >= 2 {
      assert ScanArguments(args[1..], Some(args[0]), None)
          == ScanArguments(args[2..], Some(args[0]), Some(args[1]));
    }
  }

  /**
   The arguments after the program name: one or two of them are accepted, the
   first being the input and the second, when present, the output; none, or
   more than two, lead to the usage message.
   */
  function ParseArguments(args: seq<string>): (r: Option<Invocation>)
    ensures r.Some? <==> 1 <= |args| <= 2
    ensures r.Some? ==> r.value.input == args[0]
    ensures r.Some? ==> (r.value.output.Some? <==> |args| == 2)
    ensures r.Some? && |args| == 2 ==> r.value.output == Some(args[1])
  {
    ScanFromStart(args);
    var (input, output) := ScanArguments(args, None, None);
    if input.None? then None else Some(Invocation(input.value, output))
  }

  /** A request the tool makes of the 8211 library, in the order made. */
  datatype Action =
    | Initialize(leader: Leader)
    | DefineField(defn: FieldDefnPlan)
    | CreateOutput(path: Option<string>)
    | WriteRecord(plan: RecordPlan)
    | CloseModule

  /** Why the tool exits with status 1. */
  datatype Failure =
    | UsageMessage
    | CannotParseXml
    | NoDdfModule
    | MixedTagSizes
    | FieldNotFound(name: string)

  /**
   What one run does: the requests made (those made before a failure stay
   made: records already written remain in the output) and the failure, if
   any.
   */
  datatype Run = Run(actions: seq<Action>, failure: Option<Failure>)

  /** What the XML library returns: no tree, or the tree's `DDFModule` element if it has one. */
  datatype Document = Unparsable | Parsed(ddfModule: Option<XmlNode>)

  /** Values the tool reads back from the 8211 library as defaults. */
  datatype LibraryDefaults = LibraryDefaults(fieldControlLength: int, recordSizes: RecordSizes)

  /**
   What one child of `DDFModule` amounts to. A record is translated against
   the tags of the field definitions that come before it in the document,
   which are the ones registered in the module when the loop reaches it.
   */
  datatype Step =
    | Define(plan: FieldDefnPlan)
    | Record(result: Result<RecordPlan, string>)
    | Ignore

  function StepOf(children: seq<XmlNode>, i: nat, lib: LibraryDefaults): (s: Step)
    requires i < |children|
    ensures s.Define? <==> IsElementNamed(children[i], "DDFFieldDefn")
    ensures s.Record? <==> IsElementNamed(children[i], "DDFRecord")
    ensures s.Define? ==> s.plan == TranslateFieldDefn(children[i])
    ensures s.Record? ==> s.result == TranslateRecord(children[i], FieldDefnTags(children[..i]), lib.recordSizes)
  {
    var n := children[i];
    if IsElementNamed(n, "DDFFieldDefn") then Define(TranslateFieldDefn(n))
    else if IsElementNamed(n, "DDFRecord") then
      Record(TranslateRecord(n, FieldDefnTags(children[..i]), lib.recordSizes))
    else Ignore
  }

  function Steps(children: seq<XmlNode>, lib: LibraryDefaults): (steps: seq<Step>)
    ensures |steps| == |children|
  {
    seq(|children|, i requires 0 <= i < |children| => StepOf(children, i, lib))
  }

  /** Neither `Initialize` nor `CloseModule`: what the child loop may request. */
  predicate IsBodyAction(a: Action) {
    !a.Initialize? && !a.CloseModule?
  }

  ghost predicate NoCreate(a: seq<Action>) {
    forall i :: 0 <= i < |a| ==> !a[i].CreateOutput?
  }

  ghost predicate AtMostOneCreate(a: seq<Action>) {
    forall i, j :: 0 <= i < |a| && 0 <= j < |a| && a[i].CreateOutput? && a[j].CreateOutput? ==> i == j
  }

  ghost predicate CreateBeforeWrites(a: seq<Action>) {
    forall i :: 0 <= i < |a| && a[i].WriteRecord? ==> exists j :: 0 <= j < i && a[j].CreateOutput?
  }

  /**
   The loop over the children of `DDFModule`, once each is translated. The
   output is created just before the first record, so it is created at most
   once (never again once `created`) and before any record is written; the
   loop stops at the first record naming an undefined field.
   */
  function Sequence(steps: seq<Step>, created: bool, output: Option<string>): (r: Run)
    ensures forall k :: 0 <= k < |r.actions| ==> IsBodyAction(r.actions[k])
    ensures r.failure.Some? ==> r.failure.value.FieldNotFound?
    ensures created ==> NoCreate(r.actions)
    ensures !created ==> AtMostOneCreate(r.actions) && CreateBeforeWrites(r.actions)
    ensures forall k :: 0 <= k < |r.actions| && r.actions[k].CreateOutput? ==> r.actions[k].path == output
    decreases |steps|
  {
    if |steps| == 0 then Run([], None)
    else
      match steps[0]
      case Define(p) =>
        var rest := Sequence(steps[1..], created, output);
        var acts := [DefineField(p)] + rest.actions;
        assert forall i :: 1 <= i < |acts| ==> acts[i] == rest.actions[i - 1];
        assert !created ==> CreateBeforeWrites(acts) by {
          if !created {
            forall i | 0 <= i < |acts| && acts[i].WriteRecord?
              ensures exists j :: 0 <= j < i && acts[j].CreateOutput?
            {
              var j :| 0 <= j < i - 1 && rest.actions[j].CreateOutput?;
              assert acts[j + 1].CreateOutput?;
            }
          }
        }
        Run(acts, rest.failure)
      case Record(result) =>
        var create := if created then [] else [CreateOutput(output)];
        (match result
         case Err(name) => Run(create, Some(FieldNotFound(name)))
         case Ok(plan) =>
           var rest := Sequence(steps[1..], true, output);
           var acts := create + [WriteRecord(plan)] + rest.actions;
           assert forall i :: |create| + 1 <= i < |acts| ==> acts[i] == rest.actions[i - |create| - 1];
           assert !created ==> acts[0].CreateOutput?;
           Run(acts, rest.failure))
      case Ignore => Sequence(steps[1..], created, output)
  }

  /**
   One run of the tool. Argument, parse and tag-size errors stop it before
   the module is initialised; otherwise the module is initialised first and,
   when every record resolves its fields, closed last.
   */
  function Convert(args: seq<string>, doc: Document, lib: LibraryDefaults): (r: Run)
    ensures r.failure == Some(UsageMessage) <==> !(1 <= |args| <= 2)
    ensures r.failure.Some? && !r.failure.value.FieldNotFound? ==> r.actions == []
    ensures r.failure.None? ==>
              |r.actions| >= 2 && r.actions[0].Initialize? && r.actions[|r.actions| - 1] == CloseModule
    ensures r.failure.Some? ==> forall k :: 0 <= k < |r.actions| ==> !r.actions[k].CloseModule?
    ensures r.failure == Some(MixedTagSizes) <==>
              1 <= |args| <= 2 && doc.Parsed? && doc.ddfModule.Some? && InferTagWidth(Children(doc.ddfModule.value)).None?
    ensures r.failure.None? || r.failure.value.FieldNotFound? ==>
              && doc.Parsed? && doc.ddfModule.Some? && InferTagWidth(Children(doc.ddfModule.value)).Some?
              && |r.actions| >= 1
              && r.actions[0] == Initialize(ModuleLeader(doc.ddfModule.value,
                                   InferTagWidth(Children(doc.ddfModule.value)).value, lib.fieldControlLength))
    ensures 1 <= |args| <= 2 && doc.Parsed? && doc.ddfModule.Some? && InferTagWidth(Children(doc.ddfModule.value)).Some? ==>
              var children := Children(doc.ddfModule.value);
              var steps := Steps(children, lib);
              && DefinedFields(r.actions) == TranslateFieldDefns(ElementsNamed(children[..FirstFailure(steps)], "DDFFieldDefn"))
              && WrittenRecords(r.actions) == RecordPlans(steps[..FirstFailure(steps)])
              && (r.failure.Some? <==>
                    exists i :: 0 <= i < |children| && IsElementNamed(children[i], "DDFRecord") &&
                      TranslateRecord(children[i], FieldDefnTags(children[..i]), lib.recordSizes).Err?)
    ensures 1 <= |args| <= 2 && doc.Parsed? && doc.ddfModule.Some? && InferTagWidth(Children(doc.ddfModule.value)).Some? ==>
              var children := Children(doc.ddfModule.value);
              CreatedPaths(r.actions) ==
                if HasRecordChild(children) then [ParseArguments(args).value.output] else []
  {
    match ParseArguments(args)
    case None => Run([], Some(UsageMessage))
    case Some(inv) =>
      match doc
      case Unparsable => Run([], Some(CannotParseXml))
      case Parsed(None) => Run([], Some(NoDdfModule))
      case Parsed(Some(m)) =>
        match InferTagWidth(Children(m))
        case None => Run([], Some(MixedTagSizes))
        case Some(w) => RunDocument(m, lib, inv.output)
  }

  /**
   The run once the document's `DDFModule` is found and its tag width
   inferred: the leader from its attributes, then the loop over its
   children.
   */
  function RunDocument(m: XmlNode, lib: LibraryDefaults, output: Option<string>): (r: Run)
    requires InferTagWidth(Children(m)).Some?
    ensures r.failure.Some? ==> r.failure.value.FieldNotFound?
    ensures r.failure.None? ==> |r.actions| >= 2 && r.actions[|r.actions| - 1] == CloseModule
    ensures r.failure.Some? ==> forall k :: 0 <= k < |r.actions| ==> !r.actions[k].CloseModule?
    ensures |r.actions| >= 1 &&
            r.actions[0] == Initialize(ModuleLeader(m, InferTagWidth(Children(m)).value, lib.fieldControlLength))
    ensures var steps := Steps(Children(m), lib);
            && DefinedFields(r.actions) == TranslateFieldDefns(ElementsNamed(Children(m)[..FirstFailure(steps)], "DDFFieldDefn"))
            && WrittenRecords(r.actions) == RecordPlans(steps[..FirstFailure(steps)])
    ensures r.failure.Some? <==>
              exists i :: 0 <= i < |Children(m)| && IsElementNamed(Children(m)[i], "DDFRecord") &&
                TranslateRecord(Children(m)[i], FieldDefnTags(Children(m)[..i]), lib.recordSizes).Err?
    ensures CreatedPaths(r.actions) == if HasRecordChild(Children(m)) then [output] else []
  {
    var leader := ModuleLeader(m, InferTagWidth(Children(m)).value, lib.fieldControlLength);
    ModuleRequests(leader, Children(m), lib, output);
    ModuleCreates(leader, Children(m), lib, output);
    RunModule(leader, Steps(Children(m), lib), output)
  }

  /** The run once the leader is known: initialise, run the loop, close. */
  function RunModule(leader: Leader, steps: seq<Step>, output: Option<string>): (r: Run)
    ensures r.failure.Some? ==> r.failure.value.FieldNotFound?
    ensures |r.actions| >= 1 && r.actions[0] == Initialize(leader)
    ensures r.failure.None? ==> |r.actions| >= 2 && r.actions[|r.actions| - 1] == CloseModule
    ensures r.failure.Some? ==> forall k :: 0 <= k < |r.actions| ==> !r.actions[k].CloseModule?
  {
    var body := Sequence(steps, false, output);
    var init := [Initialize(leader)];
    if body.failure.None? then Run(init + body.actions + [CloseModule], None)
    else
      var r := Run(init + body.actions, body.failure);
      assert forall k :: 1 <= k < |r.actions| ==> r.actions[k] == body.actions[k - 1];
      r
  }

  /** Mixed tag sizes stop the tool before the module is initialised. */
  lemma MixedTagSizesStopEarly(args: seq<string>, m: XmlNode, lib: LibraryDefaults)
    requires 1 <= |args| <= 2
    requires DdfLeader.Mismatch(TagLengths(Children(m)))
    ensures Convert(args, Parsed(Some(m)), lib) == Run([], Some(MixedTagSizes))
  {
    WidthScanCharacterised(TagLengths(Children(m)));
  }

  /** The number of `WriteRecord` requests. */
  function WriteCount(a: seq<Action>): nat {
    if |a| == 0 then 0 else (if a[0].WriteRecord? then 1 else 0) + WriteCount(a[1..])
  }

  /** The number of record steps. */
  function RecordCount(steps: seq<Step>): nat {
    if |steps| == 0 then 0 else (if steps[0].Record? then 1 else 0) + RecordCount(steps[1..])
  }

  lemma {:induction false} WriteCountAppend(a: seq<Action>, b: seq<Action>)
    ensures WriteCount(a + b) == WriteCount(a) + WriteCount(b)
    decreases |a|
  {
    if |a| == 0 {
      assert a + b == b;
    } else {
      assert (a + b)[0] == a[0];
      assert (a + b)[1..] == a[1..] + b;
      WriteCountAppend(a[1..], b);
    }
  }

  /** A loop that does not fail writes one record per `DDFRecord` child. */
  lemma {:induction false} EveryRecordWritten(steps: seq<Step>, created: bool, output: Option<string>)
    requires Sequence(steps, created, output).failure.None?
    ensures WriteCount(Sequence(steps, created, output).actions) == RecordCount(steps)
    decreases |steps|
  {
    if |steps| > 0 {
      match steps[0]
      case Define(p) =>
        EveryRecordWritten(steps[1..], created, output);
        WriteCountAppend([DefineField(p)], Sequence(steps[1..], created, output).actions);
      case Record(result) =>
        var create := if created then [] else [CreateOutput(output)];
        var rest := Sequence(steps[1..], true, output);
        EveryRecordWritten(steps[1..], true, output);
        WriteCountAppend(create + [WriteRecord(result.value)], rest.actions);
        WriteCountAppend(create, [WriteRecord(result.value)]);
      case Ignore =>
        EveryRecordWritten(steps[1..], created, output);
    }
  }

  /** A record step whose record names a field that is not defined. */
  predicate IsFailedRecord(s: Step) {
    s.Record? && s.result.Err?
  }

  /** The position of the first failing record, `|steps|` when every record resolves. */
  function FirstFailure(steps: seq<Step>): (i: nat)
    ensures i <= |steps|
    ensures forall j :: 0 <= j < i ==> !IsFailedRecord(steps[j])
    ensures i < |steps| ==> IsFailedRecord(steps[i])
    decreases |steps|
  {
    if |steps| == 0 || IsFailedRecord(steps[0]) then 0
    else
      var f := FirstFailure(steps[1..]);
      assert forall j :: 1 <= j < f + 1 ==> steps[j] == steps[1..][j - 1];
      f + 1
  }

  /** The plans of the definition steps, in order. */
  function DefinePlans(steps: seq<Step>): seq<FieldDefnPlan> {
    if |steps| == 0 then []
    else (if steps[0].Define? then [steps[0].plan] else []) + DefinePlans(steps[1..])
  }

  /** The plans of the record steps that resolve, in order. */
  function RecordPlans(steps: seq<Step>): seq<RecordPlan> {
    if |steps| == 0 then []
    else (if steps[0].Record? && steps[0].result.Ok? then [steps[0].result.value] else []) + RecordPlans(steps[1..])
  }

  /** The field definitions requested, in order. */
  function DefinedFields(a: seq<Action>): seq<FieldDefnPlan> {
    if |a| == 0 then []
    else (if a[0].DefineField? then [a[0].defn] else []) + DefinedFields(a[1..])
  }

  /** The records written, in order. */
  function WrittenRecords(a: seq<Action>): seq<RecordPlan> {
    if |a| == 0 then []
    else (if a[0].WriteRecord? then [a[0].plan] else []) + WrittenRecords(a[1..])
  }

  /** The paths the output is created with, in order. */
  function CreatedPaths(a: seq<Action>): seq<Option<string>> {
    if |a| == 0 then []
    else (if a[0].CreateOutput? then [a[0].path] else []) + CreatedPaths(a[1..])
  }

  lemma {:induction false} CreatedPathsAppend(a: seq<Action>, b: seq<Action>)
    ensures CreatedPaths(a + b) == CreatedPaths(a) + CreatedPaths(b)
    decreases |a|
  {
    if |a| == 0 {
      assert a + b == b;
    } else {
      assert (a + b)[0] == a[0];
      assert (a + b)[1..] == a[1..] + b;
      CreatedPathsAppend(a[1..], b);
    }
  }

  /** Some child of the module is a `DDFRecord` element. */
  predicate HasRecordChild(children: seq<XmlNode>) {
    exists i :: 0 <= i < |children| && IsElementNamed(children[i], "DDFRecord")
  }

  /** Some step is a record. */
  predicate HasRecord(steps: seq<Step>) {
    exists i :: 0 <= i < |steps| && steps[i].Record?
  }

  lemma HasRecordTail(steps: seq<Step>)
    requires |steps| > 0
    ensures HasRecord(steps) <==> steps[0].Record? || HasRecord(steps[1..])
  {
    if HasRecord(steps) && !steps[0].Record? {
      var i :| 0 <= i < |steps| && steps[i].Record?;
      assert steps[1..][i - 1] == steps[i];
    }
    if HasRecord(steps[1..]) {
      var i :| 0 <= i < |steps[1..]| && steps[1..][i].Record?;
      assert steps[i + 1] == steps[1..][i];
    }
  }

  /**
   The output is created exactly once, with the given path, when the loop
   reaches a record and it was not created before; the first record reached
   is the first record of all, whether or not its fields then resolve, since
   the loop stops only at a record.
   */
  lemma {:induction false} SequenceCreates(steps: seq<Step>, created: bool, output: Option<string>)
    ensures CreatedPaths(Sequence(steps, created, output).actions) ==
              if !created && HasRecord(steps) then [output] else []
    decreases |steps|
  {
    if |steps| > 0 {
      HasRecordTail(steps);
      match steps[0]
      case Define(p) =>
        var rest := Sequence(steps[1..], created, output);
        SequenceCreates(steps[1..], created, output);
        CreatedPathsAppend([DefineField(p)], rest.actions);
      case Record(result) =>
        var create := if created then [] else [CreateOutput(output)];
        assert CreatedPaths(create) == if created then [] else [output];
        if result.Ok? {
          var rest := Sequence(steps[1..], true, output);
          SequenceCreates(steps[1..], true, output);
          CreatedPathsAppend(create + [WriteRecord(result.value)], rest.actions);
          CreatedPathsAppend(create, [WriteRecord(result.value)]);
        }
      case Ignore =>
        SequenceCreates(steps[1..], created, output);
    }
  }

  lemma {:induction false} DefinedFieldsAppend(a: seq<Action>, b: seq<Action>)
    ensures DefinedFields(a + b) == DefinedFields(a) + DefinedFields(b)
    decreases |a|
  {
    if |a| == 0 {
      assert a + b == b;
    } else {
      assert (a + b)[0] == a[0];
      assert (a + b)[1..] == a[1..] + b;
      DefinedFieldsAppend(a[1..], b);
    }
  }

  lemma {:induction false} WrittenRecordsAppend(a: seq<Action>, b: seq<Action>)
    ensures WrittenRecords(a + b) == WrittenRecords(a) + WrittenRecords(b)
    decreases |a|
  {
    if |a| == 0 {
      assert a + b == b;
    } else {
      assert (a + b)[0] == a[0];
      assert (a + b)[1..] == a[1..] + b;
      WrittenRecordsAppend(a[1..], b);
    }
  }

  /** The definitions and records of a concatenation are those of its parts, in order. */
  lemma RequestsAppend(a: seq<Action>, b: seq<Action>)
    ensures DefinedFields(a + b) == DefinedFields(a) + DefinedFields(b)
    ensures WrittenRecords(a + b) == WrittenRecords(a) + WrittenRecords(b)
  {
    DefinedFieldsAppend(a, b);
    WrittenRecordsAppend(a, b);
  }

  /** Past a step that does not fail, the steps before the first failure are that step and the rest's. */
  lemma FirstFailureTail(steps: seq<Step>)
    requires |steps| > 0 && !IsFailedRecord(steps[0])
    ensures FirstFailure(steps) == FirstFailure(steps[1..]) + 1
    ensures steps[..FirstFailure(steps)] == [steps[0]] + steps[1..][..FirstFailure(steps[1..])]
  {
  }

  /** The loop fails exactly when some record names an undefined field, with the first one's name. */
  lemma {:induction false} SequenceFailure(steps: seq<Step>, created: bool, output: Option<string>)
    ensures Sequence(steps, created, output).failure.None? <==> FirstFailure(steps) == |steps|
    ensures Sequence(steps, created, output).failure.Some? ==>
              Sequence(steps, created, output).failure.value == FieldNotFound(steps[FirstFailure(steps)].result.error)
    decreases |steps|
  {
    if |steps| > 0 && !IsFailedRecord(steps[0]) {
      FirstFailureTail(steps);
      match steps[0]
      case Define(_) => SequenceFailure(steps[1..], created, output);
      case Record(_) => SequenceFailure(steps[1..], true, output);
      case Ignore => SequenceFailure(steps[1..], created, output);
    }
  }

  /** The loop defines the fields defined before the first failing record, in order. */
  lemma {:induction false} SequenceDefines(steps: seq<Step>, created: bool, output: Option<string>)
    ensures DefinedFields(Sequence(steps, created, output).actions) == DefinePlans(steps[..FirstFailure(steps)])
    decreases |steps|
  {
    if |steps| > 0 {
      if !IsFailedRecord(steps[0]) {
        FirstFailureTail(steps);
      }
      match steps[0]
      case Define(p) =>
        var rest := Sequence(steps[1..], created, output);
        SequenceDefines(steps[1..], created, output);
        DefinedFieldsAppend([DefineField(p)], rest.actions);
      case Record(result) =>
        var create := if created then [] else [CreateOutput(output)];
        if result.Ok? {
          var rest := Sequence(steps[1..], true, output);
          SequenceDefines(steps[1..], true, output);
          DefinedFieldsAppend(create + [WriteRecord(result.value)], rest.actions);
          DefinedFieldsAppend(create, [WriteRecord(result.value)]);
        }
      case Ignore =>
        SequenceDefines(steps[1..], created, output);
    }
  }

  /** The loop writes the resolving records that precede the first failing one, in order. */
  lemma {:induction false} SequenceWrites(steps: seq<Step>, created: bool, output: Option<string>)
    ensures WrittenRecords(Sequence(steps, created, output).actions) == RecordPlans(steps[..FirstFailure(steps)])
    decreases |steps|
  {
    if |steps| > 0 {
      if !IsFailedRecord(steps[0]) {
        FirstFailureTail(steps);
      }
      match steps[0]
      case Define(p) =>
        var rest := Sequence(steps[1..], created, output);
        SequenceWrites(steps[1..], created, output);
        WrittenRecordsAppend([DefineField(p)], rest.actions);
      case Record(result) =>
        var create := if created then [] else [CreateOutput(output)];
        if result.Ok? {
          var rest := Sequence(steps[1..], true, output);
          SequenceWrites(steps[1..], true, output);
          WrittenRecordsAppend(create + [WriteRecord(result.value)], rest.actions);
          WrittenRecordsAppend(create, [WriteRecord(result.value)]);
        }
      case Ignore =>
        SequenceWrites(steps[1..], created, output);
    }
  }

  /**
   The loop requests exactly the definitions and writes exactly the
   resolving records that come before the first record naming an undefined
   field, in document order; it fails exactly when there is such a record,
   and then with that record's unresolved name.
   */
  lemma SequenceRequests(steps: seq<Step>, created: bool, output: Option<string>)
    ensures DefinedFields(Sequence(steps, created, output).actions) == DefinePlans(steps[..FirstFailure(steps)])
    ensures WrittenRecords(Sequence(steps, created, output).actions) == RecordPlans(steps[..FirstFailure(steps)])
    ensures Sequence(steps, created, output).failure.None? <==> FirstFailure(steps) == |steps|
    ensures Sequence(steps, created, output).failure.Some? ==>
              Sequence(steps, created, output).failure.value == FieldNotFound(steps[FirstFailure(steps)].result.error)
  {
    SequenceDefines(steps, created, output);
    SequenceWrites(steps, created, output);
    SequenceFailure(steps, created, output);
  }

  /** The definition plans of `DDFFieldDefn` elements, in order. */
  function TranslateFieldDefns(defns: seq<XmlNode>): (r: seq<FieldDefnPlan>)
    ensures |r| == |defns|
    ensures forall k :: 0 <= k < |r| ==> r[k] == TranslateFieldDefn(defns[k])
  {
    seq(|defns|, i requires 0 <= i < |defns| => TranslateFieldDefn(defns[i]))
  }

  /** `steps` classify `children` one for one, definitions translated. */
  ghost predicate DefinesFollow(steps: seq<Step>, children: seq<XmlNode>) {
    |steps| == |children| &&
    forall i :: 0 <= i < |steps| ==>
      (steps[i].Define? <==> IsElementNamed(children[i], "DDFFieldDefn")) &&
      (steps[i].Define? ==> steps[i].plan == TranslateFieldDefn(children[i]))
  }

  lemma {:induction false} DefinePlansFollow(steps: seq<Step>, children: seq<XmlNode>)
    requires DefinesFollow(steps, children)
    ensures DefinePlans(steps) == TranslateFieldDefns(ElementsNamed(children, "DDFFieldDefn"))
    decreases |steps|
  {
    if |steps| > 0 {
      assert DefinesFollow(steps[1..], children[1..]) by {
        forall i | 0 <= i < |steps| - 1
          ensures steps[1..][i] == steps[i + 1] && children[1..][i] == children[i + 1]
        {
        }
      }
      DefinePlansFollow(steps[1..], children[1..]);
      var rest := ElementsNamed(children[1..], "DDFFieldDefn");
      if IsElementNamed(children[0], "DDFFieldDefn") {
        assert TranslateFieldDefns([children[0]] + rest) == [TranslateFieldDefn(children[0])] + TranslateFieldDefns(rest);
      }
    }
  }

  /** Initialising and closing add no definition and no record to the loop's. */
  lemma RunModuleRequests(leader: Leader, steps: seq<Step>, output: Option<string>)
    ensures DefinedFields(RunModule(leader, steps, output).actions) == DefinedFields(Sequence(steps, false, output).actions)
    ensures WrittenRecords(RunModule(leader, steps, output).actions) == WrittenRecords(Sequence(steps, false, output).actions)
    ensures RunModule(leader, steps, output).failure == Sequence(steps, false, output).failure
  {
    var body := Sequence(steps, false, output);
    var init := [Initialize(leader)];
    var acts := RunModule(leader, steps, output).actions;
    assert DefinedFields(init) == [] && WrittenRecords(init) == [];
    RequestsAppend(init, body.actions);
    if body.failure.None? {
      assert acts == (init + body.actions) + [CloseModule];
      assert DefinedFields([CloseModule]) == [] && WrittenRecords([CloseModule]) == [];
      RequestsAppend(init + body.actions, [CloseModule]);
    } else {
      assert acts == init + body.actions;
    }
  }

  /**
   Some record names a field not defined before it exactly when the first
   failing step is within the module's children.
   */
  lemma FailingRecordExists(children: seq<XmlNode>, lib: LibraryDefaults)
    ensures FirstFailure(Steps(children, lib)) < |children| <==>
              exists i :: 0 <= i < |children| && IsElementNamed(children[i], "DDFRecord") &&
                TranslateRecord(children[i], FieldDefnTags(children[..i]), lib.recordSizes).Err?
  {
    var steps := Steps(children, lib);
    var k := FirstFailure(steps);
    if k < |children| {
      assert IsFailedRecord(steps[k]) && steps[k] == StepOf(children, k, lib);
    } else {
      forall i | 0 <= i < |children|
        ensures !(IsElementNamed(children[i], "DDFRecord") &&
                  TranslateRecord(children[i], FieldDefnTags(children[..i]), lib.recordSizes).Err?)
      {
        assert !IsFailedRecord(steps[i]) && steps[i] == StepOf(children, i, lib);
      }
    }
  }

  /** The definition steps before the first failure are the `DDFFieldDefn` children before it, translated. */
  lemma StepsDefine(children: seq<XmlNode>, lib: LibraryDefaults)
    ensures DefinePlans(Steps(children, lib)[..FirstFailure(Steps(children, lib))]) ==
              TranslateFieldDefns(ElementsNamed(children[..FirstFailure(Steps(children, lib))], "DDFFieldDefn"))
  {
    var steps := Steps(children, lib);
    var k := FirstFailure(steps);
    assert DefinesFollow(steps[..k], children[..k]) by {
      forall i | 0 <= i < k
        ensures steps[..k][i] == StepOf(children, i, lib) && children[..k][i] == children[i]
      {
      }
    }
    DefinePlansFollow(steps[..k], children[..k]);
  }

  /**
   The loop over a module's children: the `DDFFieldDefn` children before the
   first record naming an undefined field are defined in document order, the
   records before it are written in order, each translated against the tags
   defined before it, and the run fails exactly when some record names a
   field not defined before it.
   */
  lemma ModuleRequests(leader: Leader, children: seq<XmlNode>, lib: LibraryDefaults, output: Option<string>)
    ensures DefinedFields(RunModule(leader, Steps(children, lib), output).actions) ==
              TranslateFieldDefns(ElementsNamed(children[..FirstFailure(Steps(children, lib))], "DDFFieldDefn"))
    ensures WrittenRecords(RunModule(leader, Steps(children, lib), output).actions) ==
              RecordPlans(Steps(children, lib)[..FirstFailure(Steps(children, lib))])
    ensures RunModule(leader, Steps(children, lib), output).failure.Some? <==>
              exists i :: 0 <= i < |children| && IsElementNamed(children[i], "DDFRecord") &&
                TranslateRecord(children[i], FieldDefnTags(children[..i]), lib.recordSizes).Err?
  {
    var steps := Steps(children, lib);
    RunModuleRequests(leader, steps, output);
    SequenceRequests(steps, false, output);
    StepsDefine(children, lib);
    FailingRecordExists(children, lib);
  }

  /**
   A module's output is created once, with the given path, exactly when the
   module has a `DDFRecord` child, even one whose fields do not resolve.
   */
  lemma ModuleCreates(leader: Leader, children: seq<XmlNode>, lib: LibraryDefaults, output: Option<string>)
    ensures CreatedPaths(RunModule(leader, Steps(children, lib), output).actions) ==
              if HasRecordChild(children) then [output] else []
  {
    var steps := Steps(children, lib);
    RunModuleCreates(leader, steps, output);
    SequenceCreates(steps, false, output);
    StepsHaveRecord(children, lib);
  }

  /** Initialising and closing create no output. */
  lemma RunModuleCreates(leader: Leader, steps: seq<Step>, output: Option<string>)
    ensures CreatedPaths(RunModule(leader, steps, output).actions) == CreatedPaths(Sequence(steps, false, output).actions)
  {
    var body := Sequence(steps, false, output);
    var init := [Initialize(leader)];
    var acts := RunModule(leader, steps, output).actions;
    assert CreatedPaths(init) == [];
    CreatedPathsAppend(init, body.actions);
    if body.failure.None? {
      assert acts == (init + body.actions) + [CloseModule];
      assert CreatedPaths([CloseModule]) == [];
      CreatedPathsAppend(init + body.actions, [CloseModule]);
    } else {
      assert acts == init + body.actions;
    }
  }

  /** The steps hold a record exactly when the children hold a `DDFRecord` element. */
  lemma StepsHaveRecord(children: seq<XmlNode>, lib: LibraryDefaults)
    ensures HasRecord(Steps(children, lib)) <==> HasRecordChild(children)
  {
    var steps := Steps(children, lib);
    if HasRecordChild(children) {
      var i :| 0 <= i < |children| && IsElementNamed(children[i], "DDFRecord");
      assert steps[i] == StepOf(children, i, lib);
    }
    if HasRecord(steps) {
      var i :| 0 <= i < |steps| && steps[i].Record?;
      assert steps[i] == StepOf(children, i, lib);
    }
  }
}
