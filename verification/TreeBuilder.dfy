/** The builder itself: a pass over the events that updates what it has built in place. */
module TreeBuilder {
  import opened Wrappers
  import opened Syntax
  import opened B = Build
  import BuildTheorems
  import Attachment
  import Flattening

  class Builder {
    const input: seq<Lexeme>
    var at: nat
    var depth: nat
    var flattening: nat
    var flattened: Option<nat>
    var roots: seq<Green>
    var open: seq<Pending>

    function Value(): Progress
      reads this
    {
      Progress(at, depth, flattening, flattened, roots, open)
    }

    constructor (input: seq<Lexeme>)
      ensures this.input == input && Value() == NOTHING
    {
      this.input := input;
      at, depth, flattening, flattened, roots, open := 0, 0, 0, None, [], [];
    }

    method Add(green: Green)
      modifies `roots, `open
      ensures Value() == WithChildren(old(Value()), [green])
    {
      if |open| == 0 {
        roots := roots + [green];
      } else {
        var top := open[|open| - 1];
        open := open[|open| - 1 := top.(children := top.children + [green])];
      }
    }

    method Open(kind: Kind)
      modifies `open, `depth
      ensures Value() == Opened(old(Value()), kind)
    {
      open := open + [Pending(kind, [])];
      depth := depth + 1;
    }

    method Close()
      requires open != [] && depth > 0
      modifies this
      ensures Value() == Closed(old(Value()))
    {
      var top := open[|open| - 1];
      open := open[..|open| - 1];
      Add(GreenNode(top.kind, top.children));
      depth := depth - 1;
    }

    method EmitToken(kind: Kind)
      requires at < |input|
      modifies this
      ensures Value() == B.EmitToken(old(Value()), input, kind)
    {
      Add(GreenToken(kind, input[at].text));
      at := at + 1;
    }

    method EmitTrivia()
      requires at <= |input|
      modifies this
      ensures Value() == B.EmitTrivia(old(Value()), input)
    {
      while at < |input| && IsTrivia(input[at].kind)
        invariant at <= |input|
        invariant B.EmitTrivia(Value(), input) == B.EmitTrivia(old(Value()), input)
        decreases |input| - at
      {
        EmitToken(input[at].kind);
      }
    }

    method EmitTrailing()
      requires at <= |input|
      modifies this
      ensures Value() == B.EmitTrailing(old(Value()), input)
    {
      if depth == 0 || at == 0 {
        return;
      }
      var keep := Trailing();
      for i := 0 to keep
        invariant at + (keep - i) <= |input|
        invariant EmitMany(Value(), input, keep - i) == EmitMany(old(Value()), input, keep)
      {
        EmitToken(input[at].kind);
      }
    }

    /** Counts the trivia on the current line, up to the last comment on it. */
    method Trailing() returns (keep: nat)
      requires at <= |input|
      ensures keep == B.Trailing(input, at)
      ensures IsTrailing(input, at, keep)
    {
      hide IsTrailing;
      var seen := 0;
      keep := 0;
      var ahead := at;
      while ahead < |input|
        invariant at <= ahead <= |input| && seen == ahead - at && keep <= seen
        invariant B.Trailing(input, at) ==
          (if B.Trailing(input, ahead) > 0 then seen + B.Trailing(input, ahead) else keep)
      {
        var lexeme := input[ahead];
        if !IsTrivia(lexeme.kind) {
          break;
        }
        if lexeme.kind == Whitespace && '\n' in lexeme.text {
          break;
        }
        seen := seen + 1;
        if lexeme.kind != Whitespace {
          keep := seen;
          if '\n' in lexeme.text {
            break;
          }
        }
        ahead := ahead + 1;
      }
      TrailingExactly(input, at);
    }

    /** Handles one event, which the stream it comes from makes sure is not one too many. */
    method Handle(event: Event, limit: nat, last: bool)
      requires at <= |input| && OnEvent(Value(), input, limit, event, last).Some?
      modifies this
      ensures Value() == OnEvent(old(Value()), input, limit, event, last).value
      ensures at <= |input|
    {
      OnEventAt(Value(), input, limit, event, last);
      EmitManyAt(Value(), input);
      match event {
        case Start(kind, _) =>
          EmitTrailing();
          if flattening > 0 {
            flattening := flattening + 1;
          } else if depth + 1 == limit {
            Open(Verbatim);
            flattening := 1;
            if flattened.None? {
              flattened := FirstSpan(input, at);
            }
          } else {
            Open(kind);
          }
        case Token(kind) =>
          EmitTrivia();
          EmitToken(kind);
        case Finish =>
          if last {
            EmitTrivia();
          } else {
            EmitTrailing();
          }
          flattening := if flattening > 0 then flattening - 1 else 0;
          if flattening == 0 {
            Close();
          }
      }
    }
  }

  /**
   * Builds the tree of `events`, the preorder of `tree`, over `input`, and says where
   * it was first flattened.
   */
  method Build(events: seq<Event>, input: seq<Lexeme>, limit: nat, ghost tree: Tree)
    returns (green: Green, flattened: Option<nat>)
    requires limit > 0 && BuildTheorems.Buildable(tree, input) && events == Preorder(tree)
    ensures BuildTheorems.Built(tree, input, limit, green, flattened)
    ensures green.GreenNode? && Attachment.AttachesAll(green.children, 0, input)
    ensures flattened == Flattening.Reports(input, limit, events, 0, 0)
  {
    Attachment.BuildAttaches(tree, input, limit);
    Flattening.BuildReports(tree, input, limit);
    ghost var built, where := BuildTheorems.BuildTheorem(tree, input, limit);
    var builder := new Builder(input);
    for index := 0 to |events|
      invariant builder.input == input && builder.at <= |input|
      invariant Feed(builder.Value(), input, limit, events[index..]) == Feed(NOTHING, input, limit, events)
    {
      assert events[index..][1..] == events[index + 1..];
      builder.Handle(events[index], limit, index == |events| - 1);
    }
    assert events[|events|..] == [];
    green := builder.roots[0];
    flattened := builder.flattened;
  }
}
