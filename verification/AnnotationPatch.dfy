/** The patch the webhook writes to add annotations to a pod, and what applying it does. */
module AnnotationPatch {
  import opened Wrappers
  import opened MapRange
  import opened JsonPatch
  import Escape
  import JsonPointer

  type Annotations = map<string, string>

  /** A Go map read: a missing key reads as the empty string. */
  function Lookup(m: Annotations, key: string): string {
    if key in m then m[key] else ""
  }

  /** What decoding a pod leaves in `pod.Annotations`; None is Go's nil map, Failure an unmarshalling error. */
  function ReadAnnotations(doc: Json): Result<Option<Annotations>, ()> {
    match doc
    case Null => Success(None)
    case Obj(root) =>
      if "metadata" !in root then Success(None)
      else (match root["metadata"]
            case Null => Success(None)
            case Obj(meta) =>
              if "annotations" !in meta then Success(None) else ReadMembers(meta["annotations"])
            case _ => Failure(()))
    case _ => Failure(())
  }

  /** A JSON object decodes into `map[string]string` when its members are strings; a null member reads as "". */
  function ReadMembers(json: Json): Result<Option<Annotations>, ()> {
    match json
    case Null => Success(None)
    case Obj(members) =>
      if forall k :: k in members ==> members[k].Str? || members[k].Null?
      then Success(Some(map k | k in members :: if members[k].Str? then members[k].s else ""))
      else Failure(())
    case _ => Failure(())
  }

  predicate HasMetadata(doc: Json) {
    doc.Obj? && "metadata" in doc.members && doc.members["metadata"].Obj?
  }

  predicate HasAnnotations(doc: Json) {
    && HasMetadata(doc)
    && var meta := doc.members["metadata"].members;
    && "annotations" in meta && meta["annotations"].Obj?
  }

  /** The members of the annotations object, none when it is absent or null. */
  function OldMembers(doc: Json): map<string, Json>
    requires HasMetadata(doc)
  {
    if HasAnnotations(doc) then doc.members["metadata"].members["annotations"].members else map[]
  }

  /** `doc` with the annotations object set to `members` and nothing else changed. */
  function WithMembers(doc: Json, members: map<string, Json>): Json
    requires HasMetadata(doc)
  {
    var meta := doc.members["metadata"].members["annotations" := Obj(members)];
    Obj(doc.members["metadata" := Obj(meta)])
  }

  function AsMembers(added: Annotations): map<string, Json> {
    map k | k in added :: Str(added[k])
  }

  /** The plain merge the patch stands for: old annotations overridden by the added ones. */
  function Merged(doc: Json, added: Annotations): Json
    requires HasMetadata(doc)
  {
    if added == map[] then doc else WithMembers(doc, OldMembers(doc) + AsMembers(added))
  }

  function WholeAdd(key: string, value: string): Operation {
    Operation("add", "/metadata/annotations", Obj(map[key := Str(value)]))
  }

  function MemberOp(target: Annotations, key: string, value: string): Operation {
    Operation(if Lookup(target, key) != "" then "replace" else "add",
              "/metadata/annotations/" + Escape.EscapeToken(key),
              Str(value))
  }

  /** The operation of iteration `i`: the first one creates the object when the target was nil. */
  function OperationAt(target: Option<Annotations>, added: Annotations, order: seq<string>, i: nat): Operation
    requires i < |order| && order[i] in added
  {
    if target.None? && i == 0 then WholeAdd(order[0], added[order[0]])
    else MemberOp(target.GetOr(map[]), order[i], added[order[i]])
  }

  function Operations(target: Option<Annotations>, added: Annotations, order: seq<string>): (patch: seq<Operation>)
    requires forall k :: k in order ==> k in added
    ensures |patch| == |order|
  {
    seq(|order|, i requires 0 <= i < |order| => OperationAt(target, added, order, i))
  }

  /** Go's `append` of some elements: appending nothing to a nil slice leaves it nil. */
  function Append<T>(slice: Option<seq<T>>, elements: seq<T>): Option<seq<T>> {
    if elements == [] then slice else Some(slice.GetOr([]) + elements)
  }

  // ----- The paths -----

  lemma {:induction false} NothingToEscape(s: string)
    requires '~' !in s && '/' !in s
    ensures Escape.EscapeToken(s) == s
  {
    Escape.EscapeIsSimultaneous(s);
    if s == "" {
    } else {
      assert s == [s[0]] + s[1..];
      assert '~' !in s[1..] && '/' !in s[1..];
      NothingToEscape(s[1..]);
      Escape.EscapeIsSimultaneous(s[1..]);
    }
  }

  lemma PlainPath(a: string, b: string, path: string)
    requires '~' !in a && '/' !in a && '~' !in b && '/' !in b
    requires path == "/" + a + "/" + b
    ensures JsonPointer.Parse(path) == Success([a, b])
  {
    NothingToEscape(a);
    NothingToEscape(b);
    JsonPointer.ParseTwo(a, b);
  }

  lemma PlainPathTo(a: string, b: string, prefix: string, key: string)
    requires '~' !in a && '/' !in a && '~' !in b && '/' !in b
    requires prefix == "/" + a + "/" + b + "/"
    ensures JsonPointer.Parse(prefix + Escape.EscapeToken(key)) == Success([a, b, key])
  {
    NothingToEscape(a);
    NothingToEscape(b);
    JsonPointer.ParseThree(a, b, key);
  }

  lemma ObjectPath()
    ensures JsonPointer.Parse("/metadata/annotations") == Success(["metadata", "annotations"])
  {
    assert "/" + "metadata" + "/" + "annotations" == "/metadata/annotations";
    PlainPath("metadata", "annotations", "/metadata/annotations");
  }

  /** Whatever the key holds, its path is three tokens and the last decodes to the key. */
  lemma MemberPath(key: string)
    ensures JsonPointer.Parse("/metadata/annotations/" + Escape.EscapeToken(key))
         == Success(["metadata", "annotations", key])
  {
    assert "/" + "metadata" + "/" + "annotations" + "/" == "/metadata/annotations/";
    PlainPathTo("metadata", "annotations", "/metadata/annotations/", key);
  }

  /** Distinct keys are never aliased by their paths. */
  lemma PathsDistinct(a: string, b: string)
    ensures a == b <==>
              "/metadata/annotations/" + Escape.EscapeToken(a) == "/metadata/annotations/" + Escape.EscapeToken(b)
  {
    MemberPath(a);
    MemberPath(b);
  }

  // ----- One operation -----

  lemma NoMetadata(doc: Json)
    requires ReadAnnotations(doc).Success? && !HasMetadata(doc)
    ensures ReadAnnotations(doc) == Success(None)
    ensures doc.Null? || (doc.Obj? && ("metadata" in doc.members ==> doc.members["metadata"].Null?))
  {
  }

  lemma WholeAddEffect(doc: Json, key: string, value: string)
    requires ReadAnnotations(doc).Success?
    ensures HasMetadata(doc) ==>
              ApplyOperation(doc, WholeAdd(key, value)) == Success(WithMembers(doc, map[key := Str(value)]))
    ensures !HasMetadata(doc) ==> ApplyOperation(doc, WholeAdd(key, value)) == Failure(NoParent)
  {
    var a, b := "metadata", "annotations";
    ObjectPath();
    if HasMetadata(doc) {
      AddTwoDeep(doc, a, b, Obj(map[key := Str(value)]));
    } else {
      NoMetadata(doc);
      AddNeedsParent(doc, a, b, Obj(map[key := Str(value)]));
    }
  }

  lemma MemberOpEffect(doc: Json, target: Annotations, key: string, value: string)
    requires HasAnnotations(doc)
    requires Lookup(target, key) != "" ==> key in OldMembers(doc)
    ensures ApplyOperation(doc, MemberOp(target, key, value))
         == Success(WithMembers(doc, OldMembers(doc)[key := Str(value)]))
  {
    MemberPath(key);
    SetThreeDeep(doc, "metadata", "annotations", key, Str(value));
  }

  // ----- The whole patch -----

  lemma ReadsObject(doc: Json, target: Annotations)
    requires ReadAnnotations(doc) == Success(Some(target))
    ensures HasAnnotations(doc) && OldMembers(doc).Keys == target.Keys
    ensures forall k :: k in target ==> target[k] == if OldMembers(doc)[k].Str? then OldMembers(doc)[k].s else ""
  {
  }

  lemma ReadsNil(doc: Json)
    requires ReadAnnotations(doc) == Success(None) && HasMetadata(doc)
    ensures !HasAnnotations(doc) && OldMembers(doc) == map[]
    ensures Get(doc, ["metadata", "annotations"]) in {None, Some(Null)}
  {
    GetMember(doc, "metadata", "annotations", "");
  }

  lemma MergedObject(doc: Json, added: Annotations)
    requires HasMetadata(doc) && added != map[]
    ensures HasAnnotations(Merged(doc, added))
    ensures OldMembers(Merged(doc, added)) == OldMembers(doc) + AsMembers(added)
    ensures forall members :: WithMembers(Merged(doc, added), members) == WithMembers(doc, members)
  {
    var a, b := "metadata", "annotations";
    forall members: map<string, Json>
      ensures WithMembers(Merged(doc, added), members) == WithMembers(doc, members)
    {
      var meta := doc.members[a].members;
      var old' := Obj(OldMembers(doc) + AsMembers(added));
      assert meta[b := old'][b := Obj(members)] == meta[b := Obj(members)];
      var new' := Obj(meta[b := Obj(members)]);
      assert doc.members[a := Obj(meta[b := old'])][a := new'] == doc.members[a := new'];
    }
  }

  lemma MergedOne(doc: Json, key: string, value: string)
    requires HasMetadata(doc)
    ensures Merged(doc, map[key := value]) == WithMembers(doc, OldMembers(doc)[key := Str(value)])
  {
    assert key in map[key := value];
    assert OldMembers(doc) + AsMembers(map[key := value]) == OldMembers(doc)[key := Str(value)];
  }

  lemma FirstStepNil(doc: Json, key: string, value: string)
    requires ReadAnnotations(doc) == Success(None) && HasMetadata(doc)
    ensures ApplyOperation(doc, WholeAdd(key, value)) == Success(Merged(doc, map[key := value]))
  {
    WholeAddEffect(doc, key, value);
    MergedOne(doc, key, value);
    ReadsNil(doc);
  }

  lemma FirstStepObject(doc: Json, target: Annotations, key: string, value: string)
    requires ReadAnnotations(doc) == Success(Some(target))
    ensures HasMetadata(doc)
    ensures ApplyOperation(doc, MemberOp(target, key, value)) == Success(Merged(doc, map[key := value]))
  {
    ReadsObject(doc, target);
    MemberOpEffect(doc, target, key, value);
    MergedOne(doc, key, value);
  }

  lemma LaterStep(doc: Json, target: Annotations, done: Annotations, key: string, value: string)
    requires HasMetadata(doc) && done != map[]
    requires Lookup(target, key) != "" ==> key in OldMembers(doc)
    ensures ApplyOperation(Merged(doc, done), MemberOp(target, key, value)) == Success(Merged(doc, done[key := value]))
  {
    var now, members := Merged(doc, done), OldMembers(doc);
    MergedObject(doc, done);
    MemberOpEffect(now, target, key, value);
    assert AsMembers(done[key := value]) == AsMembers(done)[key := Str(value)];
    assert members + AsMembers(done)[key := Str(value)] == (members + AsMembers(done))[key := Str(value)];
    assert key in done[key := value];
  }

  /** One step of the patch takes the document merged with the entries so far to the document merged with one more. */
  lemma StepEffect(doc: Json, target: Option<Annotations>, added: Annotations, order: seq<string>, i: nat)
    requires ReadAnnotations(doc) == Success(target) && HasMetadata(doc)
    requires Enumerates(order, added.Keys) && i < |order|
    ensures ApplyOperation(Merged(doc, Visited(added, order, i)), OperationAt(target, added, order, i))
         == Success(Merged(doc, Visited(added, order, i + 1)))
  {
    var done, key := Visited(added, order, i), order[i];
    VisitNext(added, order, i);
    if i == 0 {
      VisitNone(added, order);
      if target.None? {
        FirstStepNil(doc, key, added[key]);
      } else {
        FirstStepObject(doc, target.value, key, added[key]);
      }
    } else {
      assert order[0] in order[..i];
      assert order[0] in done;
      if target.Some? {
        ReadsObject(doc, target.value);
      }
      LaterStep(doc, target.GetOr(map[]), done, key, added[key]);
    }
  }

  /** The documents that the operations pass through. */
  function Stages(doc: Json, added: Annotations, order: seq<string>): (stages: seq<Json>)
    requires HasMetadata(doc) && forall k :: k in order ==> k in added
    ensures |stages| == |order| + 1
  {
    seq(|order| + 1, i requires 0 <= i <= |order| => Merged(doc, Visited(added, order, i)))
  }

  lemma PrefixApplies(doc: Json, target: Option<Annotations>, added: Annotations, order: seq<string>, i: nat)
    requires ReadAnnotations(doc) == Success(target) && HasMetadata(doc)
    requires Enumerates(order, added.Keys) && i <= |order|
    ensures ApplyAll(doc, Operations(target, added, order)[..i]) == Success(Merged(doc, Visited(added, order, i)))
  {
    forall j | 0 <= j < |order|
      ensures ApplyOperation(Stages(doc, added, order)[j], Operations(target, added, order)[j])
           == Success(Stages(doc, added, order)[j + 1])
    {
      StepEffect(doc, target, added, order, j);
    }
    VisitNone(added, order);
    FollowSteps(Operations(target, added, order), Stages(doc, added, order), i);
  }

  /** Applied from its strings, the patch is the plain merge, for every iteration order; it fails exactly when it has
      something to add and the document holds no metadata object. */
  lemma PatchIsMerge(doc: Json, target: Option<Annotations>, added: Annotations, order: seq<string>)
    requires ReadAnnotations(doc) == Success(target)
    requires Enumerates(order, added.Keys)
    ensures HasMetadata(doc) ==> ApplyAll(doc, Operations(target, added, order)) == Success(Merged(doc, added))
    ensures !HasMetadata(doc) && added != map[] ==> ApplyAll(doc, Operations(target, added, order)) == Failure(NoParent)
    ensures added == map[] ==> ApplyAll(doc, Operations(target, added, order)) == Success(doc)
  {
    var patch := Operations(target, added, order);
    if HasMetadata(doc) {
      PrefixApplies(doc, target, added, order, |order|);
      VisitAll(added, order);
      assert patch[..|order|] == patch;
    } else if added != map[] {
      var k :| k in added;
      assert k in added.Keys && k in order;
      WholeAddEffect(doc, order[0], added[order[0]]);
      NoMetadata(doc);
    } else {
      NothingVisited(order, added.Keys);
    }
  }

  /** A concrete failure: the pod `{}` reads as having no annotations, and the patch made for it does not apply to
      it. */
  lemma EmptyPodExample()
    ensures var pod, added := Obj(map[]), map["vault" := "done"];
            && ReadAnnotations(pod) == Success(None)
            && ApplyAll(pod, Operations(None, added, ["vault"])) == Failure(NoParent)
  {
    PatchIsMerge(Obj(map[]), None, map["vault" := "done"], ["vault"]);
  }

  /** The iteration order never shows in the result, although the patches differ. */
  lemma OrderIrrelevant(
      doc: Json, target: Option<Annotations>, added: Annotations, order: seq<string>, other: seq<string>)
    requires ReadAnnotations(doc) == Success(target)
    requires Enumerates(order, added.Keys) && Enumerates(other, added.Keys)
    ensures ApplyAll(doc, Operations(target, added, order)) == ApplyAll(doc, Operations(target, added, other))
  {
    PatchIsMerge(doc, target, added, order);
    PatchIsMerge(doc, target, added, other);
  }

  /** Decoding the merged document gives the old annotations overridden by the added ones. */
  lemma MergedReadsBack(doc: Json, target: Option<Annotations>, added: Annotations)
    requires ReadAnnotations(doc) == Success(target) && HasMetadata(doc) && added != map[]
    ensures ReadAnnotations(Merged(doc, added)) == Success(Some(target.GetOr(map[]) + added))
  {
    MergedObject(doc, added);
    if target.Some? {
      ReadsObject(doc, target.value);
    } else {
      ReadsNil(doc);
    }
    var read := ReadAnnotations(Merged(doc, added)).value.value;
    assert read == target.GetOr(map[]) + added;
  }

  /** The kind and the target of every operation, read off its strings. */
  lemma OperationKinds(target: Option<Annotations>, added: Annotations, order: seq<string>, i: nat)
    requires i < |order| && order[i] in added
    ensures var operation := OperationAt(target, added, order, i);
            var path := JsonPointer.Parse(operation.path);
            && path == Success(
                 if i == 0 && target.None? then ["metadata", "annotations"] else ["metadata", "annotations", order[i]])
            && (operation.op == "replace" <==> target.Some? && Lookup(target.value, order[i]) != "")
            && (operation.op == "add" <==> operation.op != "replace")
  {
    ObjectPath();
    MemberPath(order[i]);
  }

  lemma FindsTarget(doc: Json, key: string)
    requires HasMetadata(doc)
    ensures var value := Get(doc, ["metadata", "annotations"]);
            value.Some? && value.value.Obj? <==> HasAnnotations(doc)
    ensures HasAnnotations(doc) ==> (Get(doc, ["metadata", "annotations", key]).Some? <==> key in OldMembers(doc))
  {
    GetMember(doc, "metadata", "annotations", key);
    GetMember(doc.members["metadata"], "annotations", key, "");
    if HasAnnotations(doc) {
      GetMember(doc.members["metadata"].members["annotations"], key, key, "");
    }
  }

  /** What the merge leaves alone: every location outside the annotations object ... */
  lemma NothingElseChanges(doc: Json, added: Annotations, tokens: seq<string>)
    requires HasMetadata(doc)
    requires !(["metadata", "annotations"] <= tokens) && !(tokens <= ["metadata", "annotations"])
    ensures Get(Merged(doc, added), tokens) == Get(doc, tokens)
  {
    GetOutside(doc, "metadata", "annotations", Obj(OldMembers(doc) + AsMembers(added)), tokens);
  }

  /** ... and everything at or below an annotation that is not added. */
  lemma OnlyAddedChange(doc: Json, added: Annotations, key: string, tokens: seq<string>)
    requires HasMetadata(doc) && ReadAnnotations(doc).Success?
    requires tokens != [] && tokens[0] == key
    ensures var path := ["metadata", "annotations"] + tokens;
            Get(Merged(doc, added), path) ==
              if key in added then Get(Str(added[key]), tokens[1..]) else Get(doc, path)
  {
    var a, b := "metadata", "annotations";
    var path := [a, b] + tokens;
    assert path[2..] == tokens;
    GetInside(doc, a, b, path);
    if added != map[] {
      MergedObject(doc, added);
      GetInside(Merged(doc, added), a, b, path);
    }
  }

  /** At the moment it runs, every operation finds what it needs: a `replace` its member, a member `add` the object that
      an earlier operation or the pod supplied; and the operation that creates the object, which is only ever the first
      and only when the pod had none, finds nothing to clobber. */
  lemma OperationsFindTheirTargets(
      doc: Json, target: Option<Annotations>, added: Annotations, order: seq<string>, i: nat)
    requires ReadAnnotations(doc) == Success(target) && HasMetadata(doc)
    requires Enumerates(order, added.Keys) && i < |order|
    ensures var now := ApplyAll(doc, Operations(target, added, order)[..i]);
            && now.Success?
            && (i == 0 && target.None? ==> Get(now.value, ["metadata", "annotations"]) in {None, Some(Null)})
            && (i > 0 || target.Some? ==>
                  && Get(now.value, ["metadata", "annotations"]).Some?
                  && Get(now.value, ["metadata", "annotations"]).value.Obj?)
            && (target.Some? && Lookup(target.value, order[i]) != "" ==>
                  Get(now.value, ["metadata", "annotations", order[i]]).Some?)
  {
    PrefixApplies(doc, target, added, order, i);
    var done := Visited(added, order, i);
    if target.Some? {
      ReadsObject(doc, target.value);
    } else {
      ReadsNil(doc);
    }
    if i == 0 {
      VisitNone(added, order);
    } else {
      assert order[0] in order[..i];
      assert order[0] in done;
      MergedObject(doc, done);
    }
    FindsTarget(Merged(doc, done), order[i]);
  }

  lemma MergedAgain(doc: Json, added: Annotations)
    requires HasMetadata(doc) && added != map[]
    ensures HasMetadata(Merged(doc, added))
    ensures Merged(Merged(doc, added), added) == Merged(doc, added)
  {
    MergedObject(doc, added);
    assert OldMembers(doc) + AsMembers(added) + AsMembers(added) == OldMembers(doc) + AsMembers(added);
  }

  /** Patching an already patched document again, in any order, changes nothing; the second patch replaces exactly the
      non-empty values and re-adds the empty ones. */
  lemma Idempotent(doc: Json, target: Option<Annotations>, added: Annotations, first: seq<string>, second: seq<string>)
    requires ReadAnnotations(doc) == Success(target) && HasMetadata(doc) && added != map[]
    requires Enumerates(first, added.Keys) && Enumerates(second, added.Keys)
    ensures var once := ApplyAll(doc, Operations(target, added, first));
            && once.Success?
            && ReadAnnotations(once.value) == Success(Some(target.GetOr(map[]) + added))
            && var again := Operations(Some(target.GetOr(map[]) + added), added, second);
            && ApplyAll(once.value, again) == once
            && forall i :: 0 <= i < |second| ==> (again[i].op == "replace" <==> added[second[i]] != "")
  {
    var now := target.GetOr(map[]) + added;
    PatchIsMerge(doc, target, added, first);
    MergedReadsBack(doc, target, added);
    MergedAgain(doc, added);
    PatchIsMerge(Merged(doc, added), Some(now), added, second);
    forall i | 0 <= i < |second|
      ensures Operations(Some(now), added, second)[i].op == "replace" <==> added[second[i]] != ""
    {
      assert second[i] in second;
      OperationKinds(Some(now), added, second, i);
    }
  }

  // ----- The loop -----

  /** `updateAnnotation`: the patch is nil when nothing is added, and otherwise one operation per key, in the order the
      loop happened to visit the keys. */
  method UpdateAnnotation(target: Option<Annotations>, added: Annotations)
    returns (patch: Option<seq<Operation>>)
    ensures exists order ::
              && Enumerates(order, added.Keys)
              && patch == if added == map[] then None else Some(Operations(target, added, order))
  {
    patch := None;
    ghost var order: seq<string> := [];
    var current := target;
    var rest := added.Keys;
    while rest != {}
      invariant rest <= added.Keys
      invariant Enumerates(order, added.Keys - rest)
      invariant forall k :: k in order ==> k in added
      invariant current == if order == [] then target else Some(target.GetOr(map[]))
      invariant patch == if order == [] then None else Some(Operations(target, added, order))
      decreases rest
    {
      var key :| key in rest;
      var value := added[key];
      ghost var earlier := order;
      order := order + [key];
      if current == None {
        current := Some(map[]);
        patch := Append(patch, [WholeAdd(key, value)]);
      } else {
        var op := "add";
        if Lookup(current.value, key) != "" {
          op := "replace";
        }
        patch := Append(patch, [Operation(op, "/metadata/annotations/" + Escape.EscapeToken(key), Str(value))]);
      }
      rest := rest - {key};
      var last := OperationAt(target, added, order, |earlier|);
      assert Operations(target, added, order) == Operations(target, added, earlier) + [last];
    }
    if added == map[] {
      NothingVisited(order, added.Keys);
    } else {
      var k :| k in added;
      assert k in added.Keys && k in order;
    }
  }

  /** One marshalled operation: three members of fixed names, a name that the pod's own value decides, and a path
      that says which annotation it is about, unless it is the one that creates the object. */
  ghost predicate Marshalled(target: Option<Annotations>, added: Annotations, json: Json) {
    && json.Obj? && json.members.Keys == {"op", "path", "value"} && json.members["path"].Str?
    && var path := JsonPointer.Parse(json.members["path"].s);
    && path.Success? && ["metadata", "annotations"] <= path.value
    && if |path.value| == 2 then
         && target.None? && json.members["op"] == Str("add")
         && exists key :: key in added && json.members["value"] == Obj(map[key := Str(added[key])])
       else
         && |path.value| == 3
         && var key := path.value[2];
         && key in added && json.members["value"] == Str(added[key])
         && json.members["op"] == Str(if Lookup(target.GetOr(map[]), key) != "" then "replace" else "add")
  }

  lemma MarshalledWhole(added: Annotations, key: string, operation: Operation)
    requires JsonPointer.Parse(operation.path) == Success(["metadata", "annotations"])
    requires key in added && operation.op == "add" && operation.value == Obj(map[key := Str(added[key])])
    ensures Marshalled(None, added, EncodeOperation(operation))
  {
    EncodedMembers(operation);
  }

  lemma MarshalledMember(target: Option<Annotations>, added: Annotations, key: string, operation: Operation)
    requires JsonPointer.Parse(operation.path) == Success(["metadata", "annotations", key])
    requires key in added && operation.value == Str(added[key])
    requires operation.op == if Lookup(target.GetOr(map[]), key) != "" then "replace" else "add"
    ensures Marshalled(target, added, EncodeOperation(operation))
  {
    EncodedMembers(operation);
  }

  lemma MarshalledOperation(target: Option<Annotations>, added: Annotations, order: seq<string>, i: nat)
    requires i < |order| && order[i] in added
    ensures Marshalled(target, added, EncodeOperation(OperationAt(target, added, order, i)))
  {
    var operation := OperationAt(target, added, order, i);
    if i == 0 && target.None? {
      ObjectPath();
      MarshalledWhole(added, order[0], operation);
    } else {
      MemberPath(order[i]);
      MarshalledMember(target, added, order[i], operation);
    }
  }

  /** `createPatch`: what is marshalled is a patch document exactly when there is something to add, and then applying it
      to the pod it was made for is the plain merge. With nothing to add it is `null`, which is not a patch document. */
  method CreatePatch(podAnnotations: Option<Annotations>, annotations: Annotations) returns (document: Json)
    ensures document.Arr? <==> annotations != map[]
    ensures annotations == map[] ==> document == Null
    ensures annotations != map[] ==>
              && |document.items| == |annotations|
              && forall i :: 0 <= i < |document.items| ==> Marshalled(podAnnotations, annotations, document.items[i])
    ensures annotations != map[] ==>
              forall pod | ReadAnnotations(pod) == Success(podAnnotations) ::
                ApplyDocument(pod, document) ==
                  if HasMetadata(pod) then Success(Merged(pod, annotations)) else Failure(NoParent)
  {
    var patch: Option<seq<Operation>> := None;
    var update := UpdateAnnotation(podAnnotations, annotations);
    ghost var order :|
      && Enumerates(order, annotations.Keys)
      && update == if annotations == map[] then None else Some(Operations(podAnnotations, annotations, order));
    patch := Append(patch, update.GetOr([]));
    document := EncodePatch(patch);
    if annotations != map[] {
      ghost var k :| k in annotations;
      assert k in annotations.Keys && k in order;
      var operations := Operations(podAnnotations, annotations, order);
      assert [] + operations == operations;
      DecodeEncode(operations);
      EnumerationLength(order, annotations.Keys);
      forall i | 0 <= i < |operations|
        ensures Marshalled(podAnnotations, annotations, document.items[i])
      {
        MarshalledOperation(podAnnotations, annotations, order, i);
      }
      forall pod | ReadAnnotations(pod) == Success(podAnnotations)
        ensures ApplyDocument(pod, document)
             == if HasMetadata(pod) then Success(Merged(pod, annotations)) else Failure(NoParent)
      {
        PatchIsMerge(pod, podAnnotations, annotations, order);
      }
    }
  }
}
