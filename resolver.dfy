/// The resolver syntex hands to the expansion engine: a flat table from
/// names to extensions, an empty table of derive modes, and a counter that
/// issues node ids.
module SyntexResolver {
  import opened Wrappers
  import opened Ast
  import opened Expansions

  const USIZE_MAX: nat := 0xFFFF_FFFF_FFFF_FFFF

  /// The root mark, `Mark::root()`.
  const ROOT_MARK: nat := 0

  /// A custom-derive expander (`MultiItemModifier`).
  type DeriveMode = (Span, MetaItem, Annotatable) -> seq<Annotatable>

  datatype MacroDef = MacroDef(ident: Ident, span: Span, body: seq<Ident>)

  /// Whether `attrs` names an attribute macro: a decorator or a modifier.
  predicate IsMacroAttr(extensions: map<Name, SyntaxExtension>, a: Attribute)
  {
    AttrName(a) in extensions && (extensions[AttrName(a)].MultiModifier? || extensions[AttrName(a)].MultiDecorator?)
  }

  /// The index of the first attribute that names an attribute macro.
  function FirstMacroAttr(extensions: map<Name, SyntaxExtension>, attrs: seq<Attribute>): (r: Option<nat>)
    ensures r.None? <==> forall i :: 0 <= i < |attrs| ==> !IsMacroAttr(extensions, attrs[i])
    ensures r.Some? ==> r.value < |attrs| && IsMacroAttr(extensions, attrs[r.value])
    ensures r.Some? ==> forall j :: 0 <= j < r.value ==> !IsMacroAttr(extensions, attrs[j])
  {
    if attrs == [] then None
    else if IsMacroAttr(extensions, attrs[0]) then Some(0)
    else
      var rest := FirstMacroAttr(extensions, attrs[1..]);
      assert forall j :: 1 <= j < |attrs| ==> attrs[j] == attrs[1..][j - 1];
      if rest.None? then None else Some(rest.value + 1)
  }

  class Resolver {
    const handler: Handler
    var extensions: map<Name, SyntaxExtension>
    var deriveModes: map<Name, DeriveMode>
    var nextNodeId: nat
    /// The node ids issued so far, in order.
    ghost var issued: seq<nat>

    ghost predicate Valid()
      reads this
    {
      && deriveModes == map[]
      && nextNodeId == |issued| + 1 <= USIZE_MAX
      && (forall i :: 0 <= i < |issued| ==> issued[i] == i + 1)
    }

    /// `Resolver::new`: no extensions, no derive modes, the first node id 1.
    constructor(handler: Handler)
      ensures Valid() && this.handler == handler
      ensures extensions == map[] && nextNodeId == 1 && issued == []
    {
      this.handler := handler;
      extensions := map[];
      deriveModes := map[];
      nextNodeId := 1;
      issued := [];
    }

    /// `next_node_id`: returns the counter and advances it; running past
    /// `usize::MAX` panics.
    method NextNodeId() returns (r: Result<nat, Panic>)
      requires Valid()
      modifies this
      ensures Valid()
      ensures extensions == old(extensions)
      ensures r.Err? <==> old(nextNodeId) == USIZE_MAX
      ensures r.Err? ==> r.error == NodeIdsExhausted && nextNodeId == old(nextNodeId) && issued == old(issued)
      ensures r.Ok? ==> r.value == old(nextNodeId) && nextNodeId == old(nextNodeId) + 1
      ensures r.Ok? ==> issued == old(issued) + [r.value]
      ensures r.Ok? ==> forall i :: 0 <= i < |old(issued)| ==> old(issued)[i] < r.value
    {
      var id := nextNodeId;
      if id < USIZE_MAX {
        nextNodeId := id + 1;
        issued := issued + [id];
        r := Ok(id);
      } else {
        r := Err(NodeIdsExhausted);
      }
    }

    /// `get_module_scope`: there is one scope, the root.
    function GetModuleScope(id: nat): (m: nat)
      ensures m == ROOT_MARK
    {
      ROOT_MARK
    }

    /// `add_macro`: macro definitions are not supported; it reports a bug,
    /// which aborts.
    method AddMacro(scope: nat, def: MacroDef) returns (r: Result<(), Panic>)
      modifies handler
      ensures r == Err(ExplicitBug)
      ensures handler.diagnostics == old(handler.diagnostics) + [Diagnostic(Bug, def.span, AddMacroUnsupported)]
    {
      handler.Emit(Diagnostic(Bug, def.span, AddMacroUnsupported));
      r := Err(ExplicitBug);
    }

    /// `add_ext`: registers `ext` under `ident`'s name, replacing any
    /// earlier extension of that name.
    method AddExt(ident: Ident, ext: SyntaxExtension)
      modifies this
      ensures extensions == old(extensions)[ident.name := ext]
      ensures deriveModes == old(deriveModes) && nextNodeId == old(nextNodeId) && issued == old(issued)
      ensures forall scope :: FindExtension(scope, ident.name) == Some(ext)
      ensures forall scope, n :: n != ident.name ==> FindExtension(scope, n) == old(FindExtension(scope, n))
    {
      extensions := extensions[ident.name := ext];
    }

    /// `find_extension`: the extension registered under `name`, in any scope.
    function FindExtension(scope: nat, name: Name): (r: Option<SyntaxExtension>)
      reads this
      ensures r.Some? <==> name in extensions
      ensures r.Some? ==> r.value == extensions[name]
    {
      if name in extensions then Some(extensions[name]) else None
    }

    /// `find_attr_invoc`: removes and returns the first attribute naming a
    /// decorator or a modifier; the others keep their order.
    method FindAttrInvoc(attrs: seq<Attribute>) returns (r: Option<Attribute>, rest: seq<Attribute>)
      ensures r.None? <==> FirstMacroAttr(extensions, attrs).None?
      ensures r.None? ==> rest == attrs
      ensures r.Some? ==> (var i := FirstMacroAttr(extensions, attrs).value;
                           r.value == attrs[i] && rest == attrs[..i] + attrs[i + 1..])
    {
      var i := 0;
      while i < |attrs|
        invariant 0 <= i <= |attrs|
        invariant forall j :: 0 <= j < i ==> !IsMacroAttr(extensions, attrs[j])
      {
        var name := AttrName(attrs[i]);
        if name in extensions && (extensions[name].MultiModifier? || extensions[name].MultiDecorator?) {
          FirstMacroAttrIs(extensions, attrs, i);
          return Some(attrs[i]), attrs[..i] + attrs[i + 1..];
        }
        i := i + 1;
      }
      return None, attrs;
    }

    /// `find_mac`: a qualified macro path is reported and not resolved;
    /// otherwise the macro's name is looked up.
    method FindMac(scope: nat, mac: MacCall) returns (r: Option<SyntaxExtension>)
      requires |mac.path.segments| > 0 || mac.path.global
      modifies handler
      ensures IsQualified(mac.path) ==>
        (r.None? && handler.diagnostics == old(handler.diagnostics) + [Diagnostic(Error, mac.path.span, QualifiedMacroName)])
      ensures !IsQualified(mac.path) ==>
        (r == FindExtension(scope, mac.path.segments[0].identifier.name) && handler.diagnostics == old(handler.diagnostics))
    {
      if IsQualified(mac.path) {
        handler.Emit(Diagnostic(Error, mac.path.span, QualifiedMacroName));
        return None;
      }
      r := FindExtension(scope, mac.path.segments[0].identifier.name);
    }

    /// `resolve_invoc`: a bang invocation is looked up by its macro name
    /// (a qualified path is reported), an attribute invocation by the
    /// attribute's name; an unknown name reports "macro undefined".
    method ResolveInvoc(scope: nat, invoc: Invocation) returns (r: Option<SyntaxExtension>)
      requires invoc.kind.Bang? ==> |invoc.kind.mac.path.segments| > 0 || invoc.kind.mac.path.global
      modifies handler
      ensures invoc.kind.Bang? && IsQualified(invoc.kind.mac.path) ==>
        (r.None? &&
         handler.diagnostics == old(handler.diagnostics) + [Diagnostic(Error, invoc.kind.mac.path.span, QualifiedMacroName)])
      ensures invoc.kind.Bang? && !IsQualified(invoc.kind.mac.path) ==>
        (var name := invoc.kind.mac.path.segments[0].identifier.name;
         r == FindExtension(scope, name) &&
         handler.diagnostics == old(handler.diagnostics) +
           (if r.None? then [Diagnostic(Error, invoc.kind.mac.path.span, MacroUndefined(name))] else []))
      ensures invoc.kind.Attr? ==>
        (var name := AttrName(invoc.kind.attr);
         r == FindExtension(scope, name) &&
         handler.diagnostics == old(handler.diagnostics) +
           (if r.None? then [Diagnostic(Error, invoc.kind.attr.span, MacroUndefined(name))] else []))
    {
      var name, span;
      match invoc.kind {
        case Bang(_, mac, _, _) =>
          if IsQualified(mac.path) {
            handler.Emit(Diagnostic(Error, mac.path.span, QualifiedMacroName));
            return None;
          }
          name, span := mac.path.segments[0].identifier.name, mac.path.span;
        case Attr(attr, _) =>
          name, span := AttrName(attr), attr.span;
      }
      r := FindExtension(scope, name);
      if r.None? {
        handler.Emit(Diagnostic(Error, span, MacroUndefined(name)));
      }
    }

    /// `resolve_derive_mode`: the derive mode registered under `ident`'s
    /// name (see `DeriveModesNeverFound`).
    function ResolveDeriveMode(ident: Ident): (r: Option<DeriveMode>)
      reads this
      ensures r.Some? <==> ident.name in deriveModes
      ensures r.Some? ==> r.value == deriveModes[ident.name]
    {
      if ident.name in deriveModes then Some(deriveModes[ident.name]) else None
    }
  }

  lemma FirstMacroAttrIs(extensions: map<Name, SyntaxExtension>, attrs: seq<Attribute>, i: nat)
    requires i < |attrs| && IsMacroAttr(extensions, attrs[i])
    requires forall j :: 0 <= j < i ==> !IsMacroAttr(extensions, attrs[j])
    ensures FirstMacroAttr(extensions, attrs) == Some(i)
  {
  }

  /// Nothing ever registers a derive mode, so none is ever found.
  lemma DeriveModesNeverFound(res: Resolver, ident: Ident)
    requires res.Valid()
    ensures res.ResolveDeriveMode(ident).None?
  {
  }
}
