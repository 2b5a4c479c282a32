/** JSON documents and the `add` and `replace` operations of JSON Patch (RFC 6902, sections 3, 4.1, 4.3 and 5). */
module JsonPatch {
  import opened Wrappers
  import JsonPointer

  datatype Json =
    | Null
    | Bool(b: bool)
    | Number(text: string)
    | Str(s: string)
    | Arr(items: seq<Json>)
    | Obj(members: map<string, Json>)

  /** One element of a patch; the webhook writes the operation name and the path as plain strings. */
  datatype Operation = Operation(op: string, path: string, value: Json)

  datatype PatchError =
    | BadPath(syntax: JsonPointer.SyntaxError)
    | NoParent
    | NoTarget
    | BadIndex
    | UnknownOp
    | NotAPatch

  /** An array index: digits without a leading zero (RFC 6901, section 4). */
  function ParseIndex(token: string): Option<nat> {
    if token == "" || (token[0] == '0' && |token| > 1) then None else ParseDigits(token)
  }

  function ParseDigits(digits: string): Option<nat> {
    if digits == "" then Some(0)
    else
      var init, last := digits[..|digits| - 1], digits[|digits| - 1];
      var high := ParseDigits(init);
      if high.None? || !('0' <= last <= '9') then None
      else Some(10 * high.value + (last as int - '0' as int))
  }

  function Get(doc: Json, tokens: seq<string>): Option<Json> {
    if tokens == [] then Some(doc)
    else match doc
      case Obj(members) => if tokens[0] in members then Get(members[tokens[0]], tokens[1..]) else None
      case Arr(items) =>
        var index := ParseIndex(tokens[0]);
        if index.Some? && index.value < |items| then Get(items[index.value], tokens[1..]) else None
      case _ => None
  }

  /** Section 4.1: the parent must exist; a member is set, whether or not it was there; an array element is inserted. */
  function Add(doc: Json, tokens: seq<string>, value: Json): Result<Json, PatchError> {
    if tokens == [] then Success(value)
    else match doc
      case Obj(members) =>
        if |tokens| == 1 then Success(Obj(members[tokens[0] := value]))
        else if tokens[0] !in members then Failure(NoParent)
        else
          var child :- Add(members[tokens[0]], tokens[1..], value);
          Success(Obj(members[tokens[0] := child]))
      case Arr(items) =>
        if |tokens| == 1 && tokens[0] == "-" then Success(Arr(items + [value]))
        else
          var index := ParseIndex(tokens[0]);
          if index.None? || index.value > |items| then Failure(BadIndex)
          else if |tokens| == 1 then Success(Arr(items[..index.value] + [value] + items[index.value..]))
          else if index.value == |items| then Failure(NoParent)
          else
            var child :- Add(items[index.value], tokens[1..], value);
            Success(Arr(items[index.value := child]))
      case _ => Failure(NoParent)
  }

  /** Section 4.3: the target itself must exist. */
  function Replace(doc: Json, tokens: seq<string>, value: Json): Result<Json, PatchError> {
    if tokens == [] then Success(value)
    else match doc
      case Obj(members) =>
        if tokens[0] !in members then Failure(NoTarget)
        else
          var child :- Replace(members[tokens[0]], tokens[1..], value);
          Success(Obj(members[tokens[0] := child]))
      case Arr(items) =>
        var index := ParseIndex(tokens[0]);
        if index.None? then Failure(BadIndex)
        else if index.value >= |items| then Failure(NoTarget)
        else
          var child :- Replace(items[index.value], tokens[1..], value);
          Success(Arr(items[index.value := child]))
      case _ => Failure(NoTarget)
  }

  /** The path is parsed from its string before the operation runs. */
  function ApplyOperation(doc: Json, operation: Operation): Result<Json, PatchError> {
    match JsonPointer.Parse(operation.path)
    case Failure(error) => Failure(BadPath(error))
    case Success(tokens) =>
      if operation.op == "add" then Add(doc, tokens, operation.value)
      else if operation.op == "replace" then Replace(doc, tokens, operation.value)
      else Failure(UnknownOp)
  }

  /** Section 3: operations run in order, each on the document the previous one left; section 5: an error ends it. */
  function ApplyAll(doc: Json, patch: seq<Operation>): Result<Json, PatchError>
    decreases |patch|
  {
    if patch == [] then Success(doc)
    else
      var next :- ApplyOperation(doc, patch[0]);
      ApplyAll(next, patch[1..])
  }

  /** A replacement succeeds exactly when its target exists, and sets it. */
  lemma {:induction false} ReplaceNeedsTarget(doc: Json, tokens: seq<string>, value: Json)
    ensures Replace(doc, tokens, value).Success? <==> Get(doc, tokens).Some?
    ensures Replace(doc, tokens, value).Success? ==> Get(Replace(doc, tokens, value).value, tokens) == Some(value)
    decreases |tokens|
  {
    if tokens == [] {
    } else {
      match doc
      case Obj(members) =>
        if tokens[0] in members {
          ReplaceNeedsTarget(members[tokens[0]], tokens[1..], value);
        }
      case Arr(items) =>
        var index := ParseIndex(tokens[0]);
        if index.Some? && index.value < |items| {
          ReplaceNeedsTarget(items[index.value], tokens[1..], value);
        }
      case _ =>
    }
  }

  /** What an operation needs, by its name: a `replace` its target, an `add` no more than its parent. */
  lemma OperationNeeds(doc: Json, operation: Operation)
    requires JsonPointer.Parse(operation.path).Success? && JsonPointer.Parse(operation.path).value != []
    ensures var tokens := JsonPointer.Parse(operation.path).value;
            && (operation.op == "replace" ==> (ApplyOperation(doc, operation).Success? <==> Get(doc, tokens).Some?))
            && (operation.op == "add" ==>
                  (ApplyOperation(doc, operation).Success? <==>
                     CanAddTo(Get(doc, tokens[..|tokens| - 1]), tokens[|tokens| - 1])))
            && (operation.op != "add" && operation.op != "replace" ==> ApplyOperation(doc, operation).Failure?)
  {
    var tokens := JsonPointer.Parse(operation.path).value;
    ReplaceNeedsTarget(doc, tokens, operation.value);
    AddNeedsParentOnly(doc, tokens, operation.value);
  }

  /** Where an addition may put its value: in an object, under any name, or in an array, at an index up to its end. */
  predicate CanAddTo(parent: Option<Json>, token: string) {
    && parent.Some?
    && match parent.value
       case Obj(_) => true
       case Arr(items) => token == "-" || (ParseIndex(token).Some? && ParseIndex(token).value <= |items|)
       case _ => false
  }

  /** An addition succeeds exactly when its parent exists and can take it; in an object it sets the member. */
  lemma {:induction false} AddNeedsParentOnly(doc: Json, tokens: seq<string>, value: Json)
    requires tokens != []
    ensures var parent, last := Get(doc, tokens[..|tokens| - 1]), tokens[|tokens| - 1];
            && (Add(doc, tokens, value).Success? <==> CanAddTo(parent, last))
            && (parent.Some? && parent.value.Obj? ==> Get(Add(doc, tokens, value).value, tokens) == Some(value))
    decreases |tokens|
  {
    if |tokens| == 1 {
    } else {
      assert tokens[1..][..|tokens| - 2] == tokens[..|tokens| - 1][1..];
      match doc
      case Obj(members) =>
        if tokens[0] in members {
          AddNeedsParentOnly(members[tokens[0]], tokens[1..], value);
        }
      case Arr(items) =>
        var index := ParseIndex(tokens[0]);
        if index.Some? && index.value < |items| {
          AddNeedsParentOnly(items[index.value], tokens[1..], value);
        }
      case _ =>
    }
  }

  lemma {:induction false} ApplyInTurn(doc: Json, first: seq<Operation>, second: seq<Operation>)
    ensures ApplyAll(doc, first + second)
         == match ApplyAll(doc, first)
            case Success(middle) => ApplyAll(middle, second)
            case Failure(error) => Failure(error)
    decreases |first|
  {
    if first == [] {
      assert first + second == second;
    } else {
      assert (first + second)[1..] == first[1..] + second;
      var next := ApplyOperation(doc, first[0]);
      if next.Success? {
        ApplyInTurn(next.value, first[1..], second);
      }
    }
  }

  lemma ApplyLast(doc: Json, patch: seq<Operation>, last: Operation)
    requires ApplyAll(doc, patch).Success?
    ensures ApplyAll(doc, patch + [last]) == ApplyOperation(ApplyAll(doc, patch).value, last)
  {
    ApplyInTurn(doc, patch, [last]);
    assert [last][1..] == [];
  }

  /** If every operation takes one document to the next, so does every prefix of the patch. */
  lemma {:induction false} FollowSteps(patch: seq<Operation>, docs: seq<Json>, n: nat)
    requires |docs| == |patch| + 1 && n <= |patch|
    requires forall i :: 0 <= i < |patch| ==> ApplyOperation(docs[i], patch[i]) == Success(docs[i + 1])
    ensures ApplyAll(docs[0], patch[..n]) == Success(docs[n])
  {
    if n == 0 {
    } else {
      FollowSteps(patch, docs, n - 1);
      ApplyLast(docs[0], patch[..n - 1], patch[n - 1]);
      assert patch[..n] == patch[..n - 1] + [patch[n - 1]];
    }
  }

  /** Two and three object members deep, spelled out. */
  lemma GetMember(doc: Json, a: string, b: string, c: string)
    ensures Get(doc, [a, b]) == if doc.Obj? && a in doc.members then Get(doc.members[a], [b]) else
                                if doc.Arr? then Get(doc, [a, b]) else None
    ensures forall json: Json :: json.Obj? ==>
              Get(json, [b]) == if b in json.members then Some(json.members[b]) else None
    ensures doc.Obj? ==> Get(doc, [a, b, c]) == if a in doc.members then Get(doc.members[a], [b, c]) else None
  {
    assert [a, b][1..] == [b] && [a, b, c][1..] == [b, c] && [b][1..] == [];
  }

  lemma GetInside(doc: Json, a: string, b: string, tokens: seq<string>)
    requires doc.Obj? && a in doc.members && doc.members[a].Obj?
    requires |tokens| >= 2 && tokens[0] == a && tokens[1] == b
    ensures Get(doc, tokens)
         == if b in doc.members[a].members then Get(doc.members[a].members[b], tokens[2..]) else None
  {
    assert tokens[1..][1..] == tokens[2..];
  }

  /** Setting one member two levels down leaves every location beside it alone. */
  lemma GetOutside(doc: Json, a: string, b: string, value: Json, tokens: seq<string>)
    requires doc.Obj? && a in doc.members && doc.members[a].Obj?
    requires !([a, b] <= tokens) && !(tokens <= [a, b])
    ensures Get(Obj(doc.members[a := Obj(doc.members[a].members[b := value])]), tokens) == Get(doc, tokens)
  {
    assert tokens != [];
    assert [tokens[0]] <= tokens;
    if tokens[0] == a && |tokens| > 1 {
      assert tokens[1] != b;
    }
  }

  lemma AddTwoDeep(doc: Json, a: string, b: string, value: Json)
    requires doc.Obj? && a in doc.members && doc.members[a].Obj?
    ensures Add(doc, [a, b], value) == Success(Obj(doc.members[a := Obj(doc.members[a].members[b := value])]))
  {
    assert [a, b][1..] == [b];
    assert Add(doc.members[a], [b], value) == Success(Obj(doc.members[a].members[b := value]));
  }

  lemma AddNeedsParent(doc: Json, a: string, b: string, value: Json)
    requires !doc.Arr?
    requires doc.Obj? && a in doc.members ==> !doc.members[a].Obj? && !doc.members[a].Arr?
    ensures Add(doc, [a, b], value) == Failure(NoParent)
  {
    assert [a, b][1..] == [b];
    if doc.Obj? && a in doc.members {
      assert Add(doc.members[a], [b], value) == Failure(NoParent);
    }
  }

  lemma SetThreeDeep(doc: Json, a: string, b: string, c: string, value: Json)
    requires doc.Obj? && a in doc.members && doc.members[a].Obj?
    requires b in doc.members[a].members && doc.members[a].members[b].Obj?
    ensures var meta := doc.members[a].members;
            var result := Obj(doc.members[a := Obj(meta[b := Obj(meta[b].members[c := value])])]);
            && Add(doc, [a, b, c], value) == Success(result)
            && (c in meta[b].members ==> Replace(doc, [a, b, c], value) == Success(result))
  {
    var outer := doc.members[a];
    var inner := outer.members[b];
    var updated := Obj(inner.members[c := value]);
    assert [a, b, c][1..] == [b, c] && [b, c][1..] == [c] && [c][1..] == [];
    assert Add(inner, [c], value) == Success(updated);
    assert Add(outer, [b, c], value) == Success(Obj(outer.members[b := updated]));
    if c in inner.members {
      assert Replace(inner, [c], value) == Success(updated);
      assert Replace(outer, [b, c], value) == Success(Obj(outer.members[b := updated]));
    }
  }

  /** The tree that `json.Marshal` writes for an operation. The value is never nil, so `omitempty` never drops it. */
  function EncodeOperation(operation: Operation): Json {
    Obj(map["op" := Str(operation.op), "path" := Str(operation.path), "value" := operation.value])
  }

  lemma EncodedMembers(operation: Operation)
    ensures var json := EncodeOperation(operation);
            && json.Obj? && json.members.Keys == {"op", "path", "value"}
            && json.members["op"] == Str(operation.op)
            && json.members["path"] == Str(operation.path)
            && json.members["value"] == operation.value
  {
  }

  /** The tree that `json.Marshal` writes for a slice of operations: a nil slice is written as `null`. */
  function EncodePatch(patch: Option<seq<Operation>>): Json {
    match patch
    case None => Null
    case Some(operations) => Arr(seq(|operations|, i requires 0 <= i < |operations| => EncodeOperation(operations[i])))
  }

  function DecodeOperation(json: Json): Result<Operation, PatchError> {
    if && json.Obj?
       && "op" in json.members && json.members["op"].Str?
       && "path" in json.members && json.members["path"].Str?
       && "value" in json.members
    then Success(Operation(json.members["op"].s, json.members["path"].s, json.members["value"]))
    else Failure(NotAPatch)
  }

  function DecodeOperations(items: seq<Json>): Result<seq<Operation>, PatchError> {
    if items == [] then Success([])
    else
      var first :- DecodeOperation(items[0]);
      var rest :- DecodeOperations(items[1..]);
      Success([first] + rest)
  }

  /** Section 3: a patch document is an array of operation objects; anything else is not a patch. */
  function ApplyDocument(doc: Json, patch: Json): Result<Json, PatchError> {
    if !patch.Arr? then Failure(NotAPatch)
    else
      var operations :- DecodeOperations(patch.items);
      ApplyAll(doc, operations)
  }

  lemma {:induction false} DecodeEncode(operations: seq<Operation>)
    ensures DecodeOperations(EncodePatch(Some(operations)).items) == Success(operations)
  {
    if operations == [] {
    } else {
      var items := EncodePatch(Some(operations)).items;
      assert items[1..] == EncodePatch(Some(operations[1..])).items;
      DecodeEncode(operations[1..]);
      assert [operations[0]] + operations[1..] == operations;
    }
  }
}
