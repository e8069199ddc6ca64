/** Symbol names computed twice: by the top-down walk that threads class names, and by climbing from a node. */
module Names {
  import opened Collections

  /** Node types the two adapters look at. `ClassNode` is `class_definition` in Python and `class_declaration` in the
      JavaScript family, `FunctionNode` their function declarations, `FunctionValue` an arrow function or function
      expression, `VariableNode` a `let`, `const` or `var` declaration. */
  datatype NodeType =
    | ClassNode | FunctionNode | MethodNode | InterfaceNode | TypeAliasNode | DecoratedNode
    | ExpressionStatement | Assignment | Identifier | VariableNode | Declarator | FunctionValue
    | OtherNode(name: string)

  datatype Field = NameField | BodyField | DefinitionField | LeftField | ValueField | NoField

  /** A syntax node, with the field it fills in its parent. */
  datatype Node = Node(ntype: NodeType, field: Field, text: string, children: seq<Node>)

  /** Child indexes from the root. */
  type Position = seq<nat>

  datatype Language = Python | JavaScript

  datatype Kind = Class | Function | Method | Interface | TypeAlias | Variable

  datatype Declaration = Declaration(at: Position, kind: Kind, name: string, qualified: string)

  // -------------------------------------------------------------------- the tree

  predicate ValidAt(root: Node, at: Position) {
    at == [] || (at[0] < |root.children| && ValidAt(root.children[at[0]], at[1..]))
  }

  function At(root: Node, at: Position): Node
    requires ValidAt(root, at)
  {
    if at == [] then root else At(root.children[at[0]], at[1..])
  }

  function FieldChildFrom(children: seq<Node>, f: Field): (r: Option<nat>)
    ensures r.Some? ==> r.value < |children| && children[r.value].field == f
    decreases |children|
  {
    if children == [] then None
    else if children[0].field == f then Some(0)
    else
      var rest := FieldChildFrom(children[1..], f);
      if rest.Some? then Some(rest.value + 1) else None
  }

  /** `child_by_field_name`: the first child filling the field. */
  function FieldChild(n: Node, f: Field): (r: Option<nat>)
    ensures r.Some? ==> r.value < |n.children| && n.children[r.value].field == f
  {
    FieldChildFrom(n.children, f)
  }

  function NameOf(n: Node): Option<string> {
    var i := FieldChild(n, NameField);
    if i.Some? then Some(n.children[i.value].text) else None
  }

  function Dotted(parts: seq<string>): string {
    if parts == [] then ""
    else if |parts| == 1 then parts[0]
    else parts[0] + "." + Dotted(parts[1..])
  }

  // ---------------------------------------------------------------- climbing up

  function OwnClass(n: Node): seq<string> {
    if n.ntype == ClassNode && NameOf(n).Some? then [NameOf(n).value] else []
  }

  /** The names of the classes strictly above a position, outermost first. */
  function ClassesAbove(root: Node, at: Position): seq<string>
    requires ValidAt(root, at)
  {
    if at == [] then [] else OwnClass(root) + ClassesAbove(root.children[at[0]], at[1..])
  }

  function OwnName(n: Node): seq<string> { if NameOf(n).Some? then [NameOf(n).value] else [] }

  function Reversed<T>(s: seq<T>): seq<T> { if s == [] then [] else Reversed(s[1..]) + [s[0]] }

  lemma {:induction false} ReversedSnoc<T>(s: seq<T>, x: T)
    ensures Reversed(s + [x]) == [x] + Reversed(s)
  {
    if s == [] {
      assert [x][1..] == [];
    } else {
      assert (s + [x])[1..] == s[1..] + [x];
      ReversedSnoc(s[1..], x);
    }
  }

  lemma {:induction false} ParentValid(root: Node, at: Position)
    requires ValidAt(root, at) && at != []
    ensures ValidAt(root, at[..|at| - 1])
    ensures At(root, at[..|at| - 1]).children != [] && at[|at| - 1] < |At(root, at[..|at| - 1]).children|
    ensures At(root, at) == At(root, at[..|at| - 1]).children[at[|at| - 1]]
  {
    if |at| > 1 {
      assert at[..|at| - 1][1..] == at[1..][..|at| - 2];
      ParentValid(root.children[at[0]], at[1..]);
    } else {
      assert at[..0] == [] && at[1..] == [];
    }
  }

  lemma {:induction false} ParentAbove(root: Node, at: Position)
    requires ValidAt(root, at) && at != []
    ensures ValidAt(root, at[..|at| - 1])
    ensures ClassesAbove(root, at) == ClassesAbove(root, at[..|at| - 1]) + OwnClass(At(root, at[..|at| - 1]))
  {
    ParentValid(root, at);
    if |at| > 1 {
      var front, child := at[..|at| - 1], root.children[at[0]];
      assert front[1..] == at[1..][..|at| - 2];
      ParentAbove(child, at[1..]);
      AppendAssociates(OwnClass(root), ClassesAbove(child, front[1..]), OwnClass(At(child, front[1..])));
    } else {
      assert at[..0] == [] && at[1..] == [];
    }
  }

  /** One step of the climb: the parent's name, if it is a named class, moves over to the collected parts. */
  lemma ClimbStep(root: Node, at: Position, parts: seq<string>)
    requires ValidAt(root, at) && at != []
    ensures ValidAt(root, at[..|at| - 1])
    ensures var parent := at[..|at| - 1];
            ClassesAbove(root, at) + Reversed(parts)
                == ClassesAbove(root, parent) + Reversed(parts + OwnClass(At(root, parent)))
  {
    ParentAbove(root, at);
    var parent := at[..|at| - 1];
    ReversedOwn(parts, OwnClass(At(root, parent)));
    AppendAssociates(ClassesAbove(root, parent), OwnClass(At(root, parent)), Reversed(parts));
  }

  lemma ReversedOwn(parts: seq<string>, own: seq<string>)
    requires |own| <= 1
    ensures Reversed(parts + own) == own + Reversed(parts)
  {
    if own == [] {
      assert parts + own == parts;
    } else {
      ReversedSnoc(parts, own[0]);
      assert own == [own[0]];
    }
  }

  /** The name of a node from its own name and the classes met on the way to the root. */
  method QualifiedName(root: Node, at: Position) returns (name: string)
    requires ValidAt(root, at)
    ensures name == Dotted(ClassesAbove(root, at) + OwnName(At(root, at)))
  {
    var parts: seq<string> := [];
    if NameOf(At(root, at)).Some? { parts := parts + [NameOf(At(root, at)).value]; }
    assert Reversed(parts) == OwnName(At(root, at));
    var current := at;
    while current != []
      invariant ValidAt(root, current)
      invariant ClassesAbove(root, current) + Reversed(parts) == ClassesAbove(root, at) + OwnName(At(root, at))
      decreases |current|
    {
      ClimbStep(root, current, parts);
      var parent := current[..|current| - 1];
      var node := At(root, parent);
      assert parts + [] == parts;
      if node.ntype == ClassNode && NameOf(node).Some? {
        parts := parts + [NameOf(node).value];
      }
      current := parent;
    }
    assert Reversed(parts) == ClassesAbove(root, at) + OwnName(At(root, at));
    return Dotted(Reversed(parts));
  }

  // -------------------------------------------------------------------- walking down

  function Declare(at: Position, kind: Kind, scope: seq<string>, name: string): Declaration {
    Declaration(at, kind, name, Dotted(scope + [name]))
  }

  /** The declarations under a node, from its i-th child on; None when a required name is missing and the walk
      raises. */
  function Walk(lang: Language, n: Node, i: nat, at: Position, scope: seq<string>): Option<seq<Declaration>>
    requires i <= |n.children|
    decreases n, |n.children| - i
  {
    if i == |n.children| then Some([])
    else
      match Visit(lang, n.children[i], at + [i], scope)
      case None => None
      case Some(found) =>
        match Walk(lang, n, i + 1, at, scope)
        case None => None
        case Some(rest) => Some(found + rest)
  }

  function Visit(lang: Language, child: Node, at: Position, scope: seq<string>): Option<seq<Declaration>>
    decreases child, |child.children| + 2
  {
    match lang
    case Python =>
      if child.ntype != DecoratedNode then VisitPython(child, None, at, scope)
      else
        var j := FieldChild(child, DefinitionField);
        if j.None? then Some([]) else VisitPython(child, j, at, scope)
    case JavaScript => VisitJavaScript(child, at, scope)
  }

  /** A class and what its body declares. */
  function DeclareClass(lang: Language, target: Node, at: Position, scope: seq<string>,
      name: string): Option<seq<Declaration>>
    decreases target, |target.children|
  {
    var head := [Declare(at, Class, scope, name)];
    var b := FieldChild(target, BodyField);
    if b.None? then Some(head)
    else
      match Walk(lang, target.children[b.value], 0, at + [b.value], scope + [name])
      case None => None
      case Some(inside) => Some(head + inside)
  }

  function TargetOf(child: Node, inner: Option<nat>): Node {
    if inner.Some? && inner.value < |child.children| then child.children[inner.value] else child
  }

  function TargetAt(at: Position, inner: Option<nat>): Position { if inner.Some? then at + [inner.value] else at }

  /** A Python statement; `inner` is the definition inside a decorated one. */
  function VisitPython(child: Node, inner: Option<nat>, at: Position, scope: seq<string>): Option<seq<Declaration>>
    requires inner.Some? ==> inner.value < |child.children|
    decreases child, |child.children| + 1
  {
    var target, targetAt := TargetOf(child, inner), TargetAt(at, inner);
    if target.ntype == ClassNode then
      if NameOf(target).None? then None else DeclareClass(Python, target, targetAt, scope, NameOf(target).value)
    else if target.ntype == FunctionNode then
      if NameOf(target).None? then None
      else Some([Declare(targetAt, if scope != [] then Method else Function, scope, NameOf(target).value)])
    else if scope == [] && target.ntype == ExpressionStatement then Some(PythonVariable(target, targetAt))
    else Walk(Python, child, 0, at, scope)
  }

  function PythonVariable(statement: Node, at: Position): seq<Declaration> {
    if |statement.children| != 1 || statement.children[0].ntype != Assignment then []
    else
      var assignment := statement.children[0];
      var left := FieldChild(assignment, LeftField);
      if left.None? || assignment.children[left.value].ntype != Identifier then []
      else [Declare(at + [0], Variable, [], assignment.children[left.value].text)]
  }

  function DeclareNamed(target: Node, at: Position, kind: Kind, scope: seq<string>): seq<Declaration> {
    if NameOf(target).None? then [] else [Declare(at, kind, scope, NameOf(target).value)]
  }

  function VisitJavaScript(child: Node, at: Position, scope: seq<string>): Option<seq<Declaration>>
    decreases child, |child.children| + 1
  {
    if child.ntype == ClassNode then
      if NameOf(child).None? then Some([]) else DeclareClass(JavaScript, child, at, scope, NameOf(child).value)
    else if child.ntype == MethodNode then Some(DeclareNamed(child, at, Method, scope))
    else if child.ntype == FunctionNode then Some(DeclareNamed(child, at, Function, scope))
    else if child.ntype == InterfaceNode then if NameOf(child).None?
      then None else Some(DeclareNamed(child, at, Interface, scope))
    else if child.ntype == TypeAliasNode then if NameOf(child).None?
      then None else Some(DeclareNamed(child, at, TypeAlias, scope))
    else if child.ntype == VariableNode && scope == [] then Some(Declarators(child, 0, at))
    else Walk(JavaScript, child, 0, at, scope)
  }

  /** The module variables of one declaration; a function assigned to one counts as a function. */
  function Declarators(n: Node, k: nat, at: Position): seq<Declaration>
    requires k <= |n.children|
    decreases |n.children| - k
  {
    if k == |n.children| then [] else Declarator1(n.children[k], at + [k]) + Declarators(n, k + 1, at)
  }

  function Declarator1(d: Node, at: Position): seq<Declaration> {
    var name, value := FieldChild(d, NameField), FieldChild(d, ValueField);
    if d.ntype != Declarator || name.None? || d.children[name.value].ntype != Identifier then []
    else if value.Some? && d.children[value.value].ntype == FunctionValue
      then [Declare(at, Function, [], d.children[name.value].text)]
    else [Declare(at, Variable, [], d.children[name.value].text)]
  }

  // --------------------------------------------------------------- the two agree

  /** The grammar: the body of a class is a block, never itself a class. */
  ghost predicate BodiesAreBlocks(n: Node) {
    && (n.ntype == ClassNode && FieldChild(n, BodyField).Some? ==>
      n.children[FieldChild(n, BodyField).value].ntype != ClassNode)
    && forall c :: c in n.children ==> BodiesAreBlocks(c)
  }

  /** A declaration's qualified name is what climbing from its node gives. */
  ghost predicate Agrees(root: Node, d: Declaration) {
    ValidAt(root, d.at) && NameOf(At(root, d.at)) == Some(d.name)
        && d.qualified == Dotted(ClassesAbove(root, d.at) + [d.name])
  }

  /** Everything but a Python module variable, whose node has no name of its own. */
  predicate Named(lang: Language, d: Declaration) { lang == JavaScript || d.kind != Variable }

  ghost predicate AllAgree(lang: Language, root: Node, r: Option<seq<Declaration>>) {
    r.Some? ==> forall d :: d in r.value && Named(lang, d) ==> Agrees(root, d)
  }

  ghost predicate Placed(root: Node, n: Node, at: Position) {
    ValidAt(root, at) && At(root, at) == n && BodiesAreBlocks(n)
  }

  lemma {:induction false} ChildPlaced(root: Node, n: Node, at: Position, i: nat)
    requires Placed(root, n, at) && i < |n.children|
    ensures Placed(root, n.children[i], at + [i])
    ensures ClassesAbove(root, at + [i]) == ClassesAbove(root, at) + OwnClass(n)
  {
    assert n.children[i] in n.children;
    ChildValid(root, at, i);
    ParentValid(root, at + [i]);
    ParentAbove(root, at + [i]);
    assert (at + [i])[..|at|] == at;
  }

  lemma {:induction false} ChildValid(root: Node, at: Position, i: nat)
    requires ValidAt(root, at) && i < |At(root, at).children|
    ensures ValidAt(root, at + [i])
  {
    if at == [] {
      assert [i][1..] == [];
    } else {
      assert (at + [i])[1..] == at[1..] + [i];
      ChildValid(root.children[at[0]], at[1..], i);
    }
  }

  lemma {:induction false} WalkAgrees(lang: Language, root: Node, n: Node, i: nat, at: Position, scope: seq<string>)
    requires Placed(root, n, at) && i <= |n.children| && scope == ClassesAbove(root, at) + OwnClass(n)
    ensures AllAgree(lang, root, Walk(lang, n, i, at, scope))
    decreases n, |n.children| - i
  {
    if i < |n.children| {
      ChildPlaced(root, n, at, i);
      VisitAgrees(lang, root, n.children[i], at + [i], scope);
      WalkAgrees(lang, root, n, i + 1, at, scope);
    }
  }

  lemma {:induction false} VisitAgrees(lang: Language, root: Node, child: Node, at: Position, scope: seq<string>)
    requires Placed(root, child, at) && scope == ClassesAbove(root, at)
    ensures AllAgree(lang, root, Visit(lang, child, at, scope))
    decreases child, |child.children| + 2
  {
    match lang {
      case Python =>
        if child.ntype != DecoratedNode {
          PythonAgrees(root, child, None, at, scope);
        } else if FieldChild(child, DefinitionField).Some? {
          ChildPlaced(root, child, at, FieldChild(child, DefinitionField).value);
          PythonAgrees(root, child, FieldChild(child, DefinitionField), at, scope);
        }
      case JavaScript => JavaScriptAgrees(root, child, at, scope);
    }
  }

  lemma {:induction false} ClassAgrees(lang: Language, root: Node, target: Node, at: Position, scope: seq<string>,
      name: string)
    requires Placed(root, target, at) && scope == ClassesAbove(root, at) && target.ntype == ClassNode
        && NameOf(target) == Some(name)
    ensures AllAgree(lang, root, DeclareClass(lang, target, at, scope, name))
    decreases target, |target.children|
  {
    var b := FieldChild(target, BodyField);
    if b.Some? {
      ChildPlaced(root, target, at, b.value);
      assert OwnClass(target.children[b.value]) == [];
      assert (scope + [name]) + [] == scope + [name];
      WalkAgrees(lang, root, target.children[b.value], 0, at + [b.value], scope + [name]);
    }
  }

  lemma DeclaredAgrees(lang: Language, root: Node, n: Node, at: Position, kind: Kind, scope: seq<string>, name: string)
    requires Placed(root, n, at) && scope == ClassesAbove(root, at) && NameOf(n) == Some(name)
    ensures AllAgree(lang, root, Some([Declare(at, kind, scope, name)]))
  {
  }

  lemma VariablesAgree(root: Node, statement: Node, at: Position)
    ensures AllAgree(Python, root, Some(PythonVariable(statement, at)))
  {
  }

  lemma {:induction false} PythonAgrees(root: Node, child: Node, inner: Option<nat>, at: Position, scope: seq<string>)
    requires Placed(root, child, at) && scope == ClassesAbove(root, at)
    requires inner.Some? ==> inner.value < |child.children| && child.ntype == DecoratedNode
    requires inner.Some? ==>
        Placed(root, child.children[inner.value], at + [inner.value])
        && ClassesAbove(root, at + [inner.value]) == ClassesAbove(root, at) + OwnClass(child)
    ensures AllAgree(Python, root, VisitPython(child, inner, at, scope))
    decreases child, |child.children| + 1
  {
    var target, targetAt := TargetOf(child, inner), TargetAt(at, inner);
    assert OwnClass(child) == [] || inner.None?;
    assert ClassesAbove(root, targetAt) == scope;
    if target.ntype == ClassNode {
      if NameOf(target).Some? { ClassAgrees(Python, root, target, targetAt, scope, NameOf(target).value); }
    } else if target.ntype == FunctionNode {
      if NameOf(target).Some? {
        DeclaredAgrees(Python, root, target, targetAt,
            if scope != [] then Method else Function, scope, NameOf(target).value);
      }
    } else if scope == [] && target.ntype == ExpressionStatement {
      VariablesAgree(root, target, targetAt);
    } else {
      assert OwnClass(child) == [];
      assert scope + [] == scope;
      WalkAgrees(Python, root, child, 0, at, scope);
    }
  }

  lemma {:induction false} JavaScriptAgrees(root: Node, child: Node, at: Position, scope: seq<string>)
    requires Placed(root, child, at) && scope == ClassesAbove(root, at)
    ensures AllAgree(JavaScript, root, VisitJavaScript(child, at, scope))
    decreases child, |child.children| + 1
  {
    assert scope + [] == scope;
    if child.ntype == ClassNode {
      if NameOf(child).Some? { ClassAgrees(JavaScript, root, child, at, scope, NameOf(child).value); }
    } else if child.ntype == VariableNode && scope == [] {
      DeclaratorsAgree(root, child, 0, at);
    } else if child.ntype !in {MethodNode, FunctionNode, InterfaceNode, TypeAliasNode} {
      WalkAgrees(JavaScript, root, child, 0, at, scope);
    }
  }

  lemma {:induction false} DeclaratorsAgree(root: Node, n: Node, k: nat, at: Position)
    requires Placed(root, n, at) && k <= |n.children| && ClassesAbove(root, at) + OwnClass(n) == []
    ensures forall d :: d in Declarators(n, k, at) ==> Agrees(root, d)
    decreases |n.children| - k
  {
    if k < |n.children| {
      ChildPlaced(root, n, at, k);
      DeclaratorsAgree(root, n, k + 1, at);
    }
  }

  /** Every class, function and method the walk emits, in either family, has the name that climbing from its node
      gives. */
  lemma WalkAndClimbAgree(lang: Language, root: Node, d: Declaration)
    requires BodiesAreBlocks(root) && root.ntype != ClassNode
    requires Walk(lang, root, 0, [], []).Some? && d in Walk(lang, root, 0, [], []).value && Named(lang, d)
    ensures ValidAt(root, d.at)
    ensures d.qualified == Dotted(ClassesAbove(root, d.at) + OwnName(At(root, d.at)))
  {
    WalkAgrees(lang, root, root, 0, [], []);
    assert Agrees(root, d);
  }

  // --------------------------------------------------------------- the shared list

  /** The list the walk appends to. */
  class SymbolList {
    var symbols: seq<Declaration>

    constructor ()
      ensures symbols == []
    {
      symbols := [];
    }

    /** False when a missing name raises; what was appended before that stays. */
    method WalkChildren(lang: Language, n: Node, at: Position, scope: seq<string>) returns (ok: bool)
      modifies this
      ensures ok == Walk(lang, n, 0, at, scope).Some?
      ensures ok ==> symbols == old(symbols) + Walk(lang, n, 0, at, scope).value
      decreases n, 0
    {
      ghost var before := symbols;
      for i := 0 to |n.children|
        invariant Walk(lang, n, 0, at, scope).Some? <==> Walk(lang, n, i, at, scope).Some?
        invariant Walk(lang, n, i, at, scope).Some? ==>
            symbols + Walk(lang, n, i, at, scope).value == before + Walk(lang, n, 0, at, scope).value
      {
        ghost var start := symbols;
        if lang == Python {
          ok := VisitStatement(n.children[i], at + [i], scope);
        } else {
          ok := VisitDeclaration(n.children[i], at + [i], scope);
        }
        if !ok { return false; }
        AppendedSoFar(lang, n, i, at, scope, start);
      }
      return true;
    }

    method AppendClass(lang: Language, target: Node, at: Position, scope: seq<string>, name: string) returns (ok: bool)
      modifies this
      ensures ok == DeclareClass(lang, target, at, scope, name).Some?
      ensures ok ==> symbols == old(symbols) + DeclareClass(lang, target, at, scope, name).value
      decreases target, 1
    {
      symbols := symbols + [Declare(at, Class, scope, name)];
      var body := FieldChild(target, BodyField);
      if body.None? { return true; }
      ok := WalkChildren(lang, target.children[body.value], at + [body.value], scope + [name]);
    }

    /** Python. */
    method VisitStatement(child: Node, at: Position, scope: seq<string>) returns (ok: bool)
      modifies this
      ensures ok == Visit(Python, child, at, scope).Some?
      ensures ok ==> symbols == old(symbols) + Visit(Python, child, at, scope).value
      decreases child, 2
    {
      var inner: Option<nat> := None;
      if child.ntype == DecoratedNode {
        inner := FieldChild(child, DefinitionField);
        if inner.None? { return true; }
      }
      assert Visit(Python, child, at, scope) == VisitPython(child, inner, at, scope);
      var target, targetAt := TargetOf(child, inner), TargetAt(at, inner);
      if target.ntype == ClassNode {
        if NameOf(target).None? { return false; }
        ok := AppendClass(Python, target, targetAt, scope, NameOf(target).value);
      } else if target.ntype == FunctionNode {
        if NameOf(target).None? { return false; }
        symbols := symbols + [Declare(targetAt, if scope != [] then Method else Function, scope, NameOf(target).value)];
        ok := true;
      } else if scope == [] && target.ntype == ExpressionStatement {
        symbols := symbols + PythonVariable(target, targetAt);
        ok := true;
      } else {
        ok := WalkChildren(Python, child, at, scope);
      }
    }

    /** The JavaScript family. */
    method VisitDeclaration(child: Node, at: Position, scope: seq<string>) returns (ok: bool)
      modifies this
      ensures ok == Visit(JavaScript, child, at, scope).Some?
      ensures ok ==> symbols == old(symbols) + Visit(JavaScript, child, at, scope).value
      decreases child, 2
    {
      assert Visit(JavaScript, child, at, scope) == VisitJavaScript(child, at, scope);
      var name := NameOf(child);
      if child.ntype == ClassNode {
        if name.None? { return true; }
        ok := AppendClass(JavaScript, child, at, scope, name.value);
      } else if child.ntype == MethodNode || child.ntype == FunctionNode {
        if name.None? { return true; }
        symbols := symbols + [Declare(at, if child.ntype == MethodNode then Method else Function, scope, name.value)];
        ok := true;
      } else if child.ntype == InterfaceNode || child.ntype == TypeAliasNode {
        if name.None? { return false; }
        symbols := symbols
            + [Declare(at, if child.ntype == InterfaceNode then Interface else TypeAlias, scope, name.value)];
        ok := true;
      } else if child.ntype == VariableNode && scope == [] {
        symbols := symbols + Declarators(child, 0, at);
        ok := true;
      } else {
        ok := WalkChildren(JavaScript, child, at, scope);
      }
    }
  }

  lemma AppendedSoFar(lang: Language, n: Node, i: nat, at: Position, scope: seq<string>, start: seq<Declaration>)
    requires i < |n.children| && Visit(lang, n.children[i], at + [i], scope).Some?
    ensures Walk(lang, n, i, at, scope).Some? <==> Walk(lang, n, i + 1, at, scope).Some?
    ensures Walk(lang, n, i, at, scope).Some? ==>
              start + Walk(lang, n, i, at, scope).value
              == start + Visit(lang, n.children[i], at + [i], scope).value + Walk(lang, n, i + 1, at, scope).value
  {
  }
}
