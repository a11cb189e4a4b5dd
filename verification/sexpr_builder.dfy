/**
 * SexprBuilder of common/sexpr.py: a text builder that writes groups `(key …)`
 * across lines, with pending items that are flushed, space-separated, before any
 * other output, and an indentation level that never drops below zero.
 */
module SexprBuilding {
  import opened Wrappers
  import opened Text
  import opened Sexpr

  /** An argument of addItems: a value, or a dict of keyed values. */
  datatype Arg = Value(v: PyVal) | Entries(entries: seq<(string, PyVal)>)

  /** SexprItem of an argument. */
  function Render(a: Arg): string {
    match a
    case Value(v) => SexprItem(v, "")
    case Entries(es) => SexprDict(es)
  }

  /** The arguments rendered, in order. */
  function RenderAll(args: seq<Arg>): (r: seq<string>)
    ensures |r| == |args| && forall k :: 0 <= k < |args| ==> r[k] == Render(args[k])
  {
    if args == [] then [] else [Render(args[0])] + RenderAll(args[1..])
  }

  /** `item in [None, 0, False]`: Python's 0 and False compare equal. */
  predicate Skipped(item: PyVal) {
    item == PNone || item == PInt(0) || item == PBool(false)
  }

  /** What startGroup writes after `(` for a key: `str(key) + ' '` when the key is truthy. */
  function KeyText(key: Option<string>): string {
    if key.Some? && key.value != "" then key.value + " " else ""
  }

  /** The line break and indentation of the given level. */
  function LineStart(indent: int): string {
    "\n" + Spaces(2 * indent)
  }

  class SexprBuilder {
    var indent: int
    var output: string
    var items: seq<string>

    ghost predicate Valid()
      reads this
    {
      indent >= 0
    }

    /** Everything written so far, the pending items included, as a flush would write them. */
    function Text(): string
      reads this
    {
      output + Join(items, " ")
    }

    /** A builder with an open group for key, on the first line. */
    constructor(key: Option<string>)
      ensures Valid() && indent == 0 && items == []
      ensures output == if key.Some? then "(" + KeyText(key) else ""
    {
      indent := 0;
      output := "";
      items := [];
      new;
      if key.Some? {
        StartGroup(key, false, false);
      }
    }

    /** `_indent`: two spaces per level. */
    method WriteIndent()
      requires Valid()
      modifies this
      ensures Valid() && indent == old(indent) && items == old(items)
      ensures output == old(output) + Spaces(2 * indent)
    {
      output := output + Spaces(2 * indent);
    }

    /** `_newline`. */
    method WriteNewline()
      requires Valid()
      modifies this
      ensures Valid() && indent == old(indent) && items == old(items)
      ensures output == old(output) + "\n"
    {
      output := output + "\n";
    }

    /** `_addItems`: the pending items are written, space-separated, and the list emptied. */
    method FlushItems()
      requires Valid()
      modifies this
      ensures Valid() && indent == old(indent) && items == []
      ensures output == old(output) + Join(old(items), " ")
      ensures Text() == old(Text())
    {
      output := output + Join(items, " ");
      items := [];
    }

    method StartGroup(key: Option<string>, newline: bool, indentGroup: bool)
      requires Valid()
      modifies this
      ensures Valid() && items == []
      ensures indent == old(indent) + (if newline && indentGroup then 1 else 0)
      ensures output == old(Text()) + (if newline then LineStart(indent) else "") + "(" + KeyText(key)
      ensures old(Text()) <= Text()
    {
      FlushItems();
      ghost var flushed := output;
      if newline && indentGroup {
        indent := indent + 1;
      }
      if newline {
        WriteNewline();
        WriteIndent();
        Assoc(flushed, "\n", Spaces(2 * indent));
      }
      ghost var broken := output;
      output := output + "(" + KeyText(key);
      Assoc(flushed, broken[|flushed|..], "(" + KeyText(key));
    }

    /** `endGroup`: the line break, if any, comes at the level outside the group. */
    method EndGroup(newline: bool)
      requires Valid()
      modifies this
      ensures Valid() && items == []
      ensures indent == if newline && old(indent) > 0 then old(indent) - 1 else old(indent)
      ensures output == old(Text()) + (if newline then LineStart(indent) else "") + ")"
      ensures old(Text()) <= Text()
    {
      FlushItems();
      ghost var flushed := output;
      if newline {
        WriteNewline();
        if indent > 0 {
          indent := indent - 1;
        }
        WriteIndent();
        Assoc(flushed, "\n", Spaces(2 * indent));
      }
      ghost var broken := output;
      output := output + ")";
      Assoc(flushed, broken[|flushed|..], ")");
    }

    /** `newLine`: flushes, breaks the line, and indents at the (possibly raised) level. */
    method NewLine(indentNext: bool)
      requires Valid()
      modifies this
      ensures Valid() && items == []
      ensures indent == old(indent) + (if indentNext then 1 else 0)
      ensures output == old(Text()) + LineStart(indent)
      ensures old(Text()) <= Text()
    {
      FlushItems();
      ghost var flushed := output;
      WriteNewline();
      if indentNext {
        indent := indent + 1;
      }
      WriteIndent();
      Assoc(flushed, "\n", Spaces(2 * indent));
    }

    /** `addItem`: the item becomes the only pending one. */
    method AddItem(item: PyVal, newline: bool, indentItem: bool)
      requires Valid()
      modifies this
      ensures Valid() && items == [SexprItem(item, "")]
      ensures indent == old(indent) + (if newline && indentItem then 1 else 0)
      ensures output == old(Text()) + (if newline then LineStart(indent) else "")
      ensures old(Text()) <= Text()
    {
      FlushItems();
      if newline && indentItem {
        indent := indent + 1;
      }
      if newline {
        NewLine(false);
      }
      items := [SexprItem(item, "")];
      Assoc(old(Text()), output[|old(Text())|..], SexprItem(item, ""));
    }

    /** `addItems`: the arguments, rendered, become the pending items in order. */
    method AddItems(args: seq<Arg>, newline: bool, indentItems: bool)
      requires Valid()
      modifies this
      ensures Valid() && items == RenderAll(args)
      ensures indent == old(indent) + (if indentItems then 1 else 0)
      ensures output == old(Text()) + (if newline then LineStart(indent) else "")
      ensures old(Text()) <= Text()
    {
      FlushItems();
      if indentItems {
        indent := indent + 1;
      }
      if newline {
        NewLine(false);
      }
      Assoc(old(Text()), output[|old(Text())|..], Join(RenderAll(args), " "));
      AppendRendered(args);
    }

    /** The loop of addItems: appends the rendered arguments to the (empty) pending list. */
    method AppendRendered(args: seq<Arg>)
      requires Valid() && items == []
      modifies this
      ensures Valid() && output == old(output) && indent == old(indent)
      ensures items == RenderAll(args)
    {
      var rendered: seq<string> := [];
      var i := 0;
      while i < |args|
        invariant 0 <= i <= |args| && |rendered| == i
        invariant forall k :: 0 <= k < i ==> rendered[k] == Render(args[k])
        modifies {}
      {
        rendered := rendered + [Render(args[i])];
        i := i + 1;
      }
      items := rendered;
    }

    /** `addOptItem`: nothing for None, 0 or False; otherwise the single item `(key item)`. */
    method AddOptItem(key: string, item: PyVal, newline: bool, indentItem: bool)
      requires Valid()
      modifies this
      ensures Skipped(item) ==> indent == old(indent) && output == old(output) && items == old(items)
      ensures !Skipped(item) ==>
        && items == [SexprItem(item, key)]
        && indent == old(indent) + (if indentItem then 1 else 0)
        && output == old(Text()) + (if newline then LineStart(indent) else "")
      ensures Valid() && old(Text()) <= Text()
    {
      if Skipped(item) {
        return;
      }
      AddItems([Entries([(key, item)])], newline, indentItem);
      SexprDictSingle(key, item);
    }

    /** `unIndent`. */
    method UnIndent()
      requires Valid()
      modifies this
      ensures Valid() && output == old(output) && items == old(items)
      ensures indent == if old(indent) > 0 then old(indent) - 1 else 0
    {
      if indent > 0 {
        indent := indent - 1;
      }
    }
  }

  /** Appending in two steps. */
  lemma Assoc(a: string, b: string, c: string)
    ensures a + b + c == a + (b + c) && (a + b)[|a|..] == b && a <= a + b + c
  {
    assert (a + b + c)[..|a|] == a;
  }
}
