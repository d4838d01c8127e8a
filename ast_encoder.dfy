/**
 * `ASTEncoder`: a depth-first walk that writes the tree in treebank form,
 * `(Name child child ...)`, into a string builder. Only production nodes reach the
 * `defaultIn`/`defaultOut` hooks (tokens print nothing), so a tree here is the
 * production nodes alone; `AIdOptId` and `AVariableExpr` also embed the text of
 * their identifier token.
 */
module AstEncoders {
  import opened Wrappers
  import opened Strings

  /** A production node: its simple class name, the identifier text it embeds (only
      `AIdOptId` and `AVariableExpr` do), and its production children in order. */
  datatype Node = Node(name: string, embed: Option<string>, kids: seq<Node>)

  function Embedded(t: Node): string
  {
    if t.embed.Some? then t.embed.value else ""
  }

  /** Class names and identifier texts hold no space and no parenthesis. */
  predicate Word(w: string)
  {
    forall i :: 0 <= i < |w| ==> w[i] != ' ' && w[i] != '(' && w[i] != ')'
  }

  predicate WellFormed(t: Node)
    decreases t
  {
    Word(t.name) && Word(Embedded(t)) && forall k :: 0 <= k < |t.kids| ==> WellFormed(t.kids[k])
  }

  /** The treebank encoding of a subtree: "(" and the name, then a space, the embedded
      text and the children separated by single spaces, then ")"; a node with
      nothing after its name is "(Name)". */
  function Encode(t: Node): string
    decreases t, 1
  {
    "(" + t.name
      + (if Embedded(t) == "" && |t.kids| == 0 then "" else " " + Embedded(t) + Join(Encodings(t.kids), " "))
      + ")"
  }

  function Encodings(ts: seq<Node>): seq<string>
    decreases ts, 0
  {
    seq(|ts|, i requires 0 <= i < |ts| => Encode(ts[i]))
  }

  /** What `defaultIn` puts in front of a node: a space when the text so far ends
      with a closing parenthesis. */
  function Sep(s: string): string
  {
    if |s| > 0 && s[|s| - 1] == ')' then " " else ""
  }

  class Encoder {
    var sb: string

    constructor()
      ensures sb == ""
    {
      sb := "";
    }

    /** `getEncoding`. */
    function GetEncoding(): string
      reads this
    {
      sb
    }

    /** `defaultIn`: a separating space after a closed sibling, then "(Name ". */
    method DefaultIn(name: string)
      modifies this
      ensures sb == old(sb) + Sep(old(sb)) + "(" + name + " "
    {
      var lastIdx := |sb| - 1;
      if lastIdx > -1 && sb[lastIdx] == ')' {
        sb := sb + " ";
      }
      sb := sb + "(" + name + " ";
    }

    /** `defaultOut`: the space left by `defaultIn` is dropped when nothing followed
      it, then ")". */
    method DefaultOut()
      requires |sb| > 0
      modifies this
      ensures sb == (if old(sb)[|old(sb)| - 1] == ' ' then old(sb)[..|old(sb)| - 1] else old(sb)) + ")"
    {
      var lastIdx := |sb| - 1;
      if sb[lastIdx] == ' ' {
        sb := sb[..lastIdx];
      }
      sb := sb + ")";
    }

    /** `inAIdOptId` and `inAVariableExpr`: the usual opening, then the identifier. */
    method InEmbedding(name: string, text: string)
      modifies this
      ensures sb == old(sb) + Sep(old(sb)) + "(" + name + " " + text
    {
      DefaultIn(name);
      sb := sb + text;
    }

    /** The opening hook of a node, with its identifier when it embeds one. */
    method Open(t: Node)
      modifies this
      ensures sb == old(sb) + Sep(old(sb)) + "(" + t.name + " " + Embedded(t)
    {
      if t.embed.Some? {
        InEmbedding(t.name, t.embed.value);
      } else {
        DefaultIn(t.name);
        assert sb == sb + "";
      }
    }

    /** The depth-first walk over one subtree: its opening hook, its children in
        order, its closing hook. */
    method Apply(t: Node)
      requires WellFormed(t)
      modifies this
      ensures sb == old(sb) + Sep(old(sb)) + Encode(t)
      decreases t, 1
    {
      var prefix := sb + Sep(sb);
      Open(t);
      var head := sb;
      LastOfOpening(head, Embedded(t));
      ApplyAll(t.kids);
      var j := Join(Encodings(t.kids), " ");
      if |t.kids| > 0 {
        JoinEndsWithLast(Encodings(t.kids), " ");
      }
      Closing(prefix, t, j);
      DefaultOut();
    }

    /** The children of a node, each after the one before it; the text so far ends
        in the parent's opening, never in ")". */
    method ApplyAll(ts: seq<Node>)
      requires forall k :: 0 <= k < |ts| ==> WellFormed(ts[k])
      requires |sb| > 0 && sb[|sb| - 1] != ')'
      modifies this
      ensures sb == old(sb) + Join(Encodings(ts), " ")
      decreases ts, 0
    {
      var k := 0;
      while k < |ts|
        invariant 0 <= k <= |ts|
        invariant sb == old(sb) + Join(Encodings(ts[..k]), " ")
      {
        Apply(ts[k]);
        ChildStep(old(sb), ts, k);
        k := k + 1;
      }
      assert ts[..k] == ts;
    }
  }

  /** The whole encoder run on a tree, as `getEncoding` returns it. */
  method EncodeTree(t: Node) returns (r: string)
    requires WellFormed(t)
    ensures r == Encode(t)
  {
    var e := new Encoder();
    e.Apply(t);
    r := e.GetEncoding();
  }

  lemma LastOfOpening(head: string, text: string)
    requires |head| > 0 && Word(text)
    requires |head| > |text| && head[|head| - |text|..] == text && head[|head| - |text| - 1] == ' '
    ensures head[|head| - 1] != ')'
    ensures head[|head| - 1] == ' ' <==> text == ""
  {
    if text != "" {
      assert head[|head| - 1] == text[|text| - 1];
    }
  }

  /** What `defaultOut` makes of a node's text: the opening's space goes only when
      nothing was written after it. */
  lemma Closing(prefix: string, t: Node, j: string)
    requires Word(Embedded(t)) && j == Join(Encodings(t.kids), " ")
    requires (|t.kids| == 0 <==> j == "") && (j != "" ==> j[|j| - 1] == ')')
    ensures var s := prefix + "(" + t.name + " " + Embedded(t) + j;
      (if s[|s| - 1] == ' ' then s[..|s| - 1] else s) + ")" == prefix + Encode(t)
  {
    ClosingText(prefix, t.name, Embedded(t), j);
  }

  /** The same over the pieces of the text. */
  lemma ClosingText(prefix: string, name: string, text: string, j: string)
    requires Word(text) && (j != "" ==> j[|j| - 1] == ')')
    ensures var s := prefix + "(" + name + " " + text + j;
      (if s[|s| - 1] == ' ' then s[..|s| - 1] else s) + ")"
        == prefix + ("(" + name + (if text == "" && j == "" then "" else " " + text + j) + ")")
  {
    var s := prefix + "(" + name + " " + text + j;
    if text == "" && j == "" {
      assert s == prefix + "(" + name + " ";
      assert s[..|s| - 1] == prefix + "(" + name;
    } else if j == "" {
      assert s[|s| - 1] == text[|text| - 1];
    } else {
      assert s[|s| - 1] == j[|j| - 1];
    }
  }

  /** One more child: a space goes in front of it exactly when a sibling precedes it. */
  lemma ChildStep(base: string, ts: seq<Node>, k: nat)
    requires |base| > 0 && base[|base| - 1] != ')' && k < |ts|
    ensures var b := base + Join(Encodings(ts[..k]), " ");
      b + Sep(b) + Encode(ts[k]) == base + Join(Encodings(ts[..k + 1]), " ")
  {
    var es := Encodings(ts[..k]);
    var e := Encode(ts[k]);
    EncodingsSnoc(ts, k);
    var b := base + Join(es, " ");
    if k == 0 {
      assert es == [];
      assert b == base;
      assert es + [e] == [e];
    } else {
      EncodeCloses(ts[k - 1]);
      assert es[|es| - 1] == Encode(ts[k - 1]);
      JoinEndsWithLast(es, " ");
      assert Sep(b) == " ";
      JoinSnoc(es, e, " ");
    }
  }

  lemma EncodingsSnoc(ts: seq<Node>, k: nat)
    requires k < |ts|
    ensures Encodings(ts[..k + 1]) == Encodings(ts[..k]) + [Encode(ts[k])]
  {
  }

  lemma EncodeCloses(t: Node)
    ensures |Encode(t)| > 0 && Encode(t)[|Encode(t)| - 1] == ')'
  {
  }

  lemma JoinEndsWithLast(parts: seq<string>, sep: string)
    requires |parts| > 0 && |parts[|parts| - 1]| > 0
    ensures var j := Join(parts, sep); |j| > 0 && j[|j| - 1] == parts[|parts| - 1][|parts[|parts| - 1]| - 1]
  {
  }

  /** Every node opens one parenthesis and closes it after its children: the encoding
      of a tree is a single balanced parenthesised term. */
  lemma {:induction false} EncodingIsOneTree(t: Node)
    requires WellFormed(t)
    ensures SingleTree(Encode(t))
    decreases t, 1
  {
    KidsBalanced(t);
    OneTreeOf(t.name, Embedded(t), Join(Encodings(t.kids), " "), Embedded(t) == "" && |t.kids| == 0);
  }

  /** The children's encodings, joined by spaces, are balanced. */
  lemma {:induction false} KidsBalanced(t: Node)
    requires WellFormed(t)
    ensures Balanced(Join(Encodings(t.kids), " "))
    decreases t, 0
  {
    var kids := Encodings(t.kids);
    forall k | 0 <= k < |kids|
      ensures Balanced(kids[k])
    {
      EncodingIsOneTree(t.kids[k]);
    }
    WordBalanced(" ");
    JoinBalanced(kids, " ");
  }

  /** A name, then optionally a space, a word and balanced text, all in parentheses,
      is one tree. */
  lemma OneTreeOf(name: string, embed: string, j: string, bare: bool)
    requires Word(name) && Word(embed) && Balanced(j)
    ensures SingleTree("(" + name + (if bare then "" else " " + embed + j) + ")")
  {
    RestBalanced(embed, j, bare);
    NamedTree(name, if bare then "" else " " + embed + j);
  }

  lemma RestBalanced(embed: string, j: string, bare: bool)
    requires Word(embed) && Balanced(j)
    ensures Balanced(if bare then "" else " " + embed + j)
  {
    if bare {
      WordBalanced("");
    } else {
      WordBalanced(" ");
      WordBalanced(embed);
      BalancedConcat(" ", embed);
      BalancedConcat(" " + embed, j);
    }
  }

  lemma NamedTree(name: string, rest: string)
    requires Word(name) && Balanced(rest)
    ensures SingleTree("(" + name + rest + ")")
  {
    WordBalanced(name);
    BalancedConcat(name, rest);
    Wrapped(name + rest);
    assert "(" + name + rest + ")" == "(" + (name + rest) + ")";
  }

  // ------------------------------------------------------------------ shapes

  /** A node starts with "(" and its class name, and a node with no children and no
      embedded text is "(Name)". */
  lemma Shapes(t: Node)
    ensures Encode(t)[..|t.name| + 1] == "(" + t.name
    ensures t.embed.None? && |t.kids| == 0 ==> Encode(t) == "(" + t.name + ")"
    ensures Encode(t)[|Encode(t)| - 1] == ')'
  {
  }

  /** An identifier is written after the class name: `(AVariableExpr x)`. */
  lemma IdentifierEmbedded(x: string)
    requires x != ""
    ensures Encode(Node("AVariableExpr", Some(x), [])) == "(AVariableExpr " + x + ")"
    ensures Encode(Node("AIdOptId", Some(x), [])) == "(AIdOptId " + x + ")"
  {
  }

  /** Siblings are separated by exactly one space, and the first child follows the
      parent's name after one space. */
  lemma SiblingsSeparated(name: string, a: Node, b: Node)
    ensures Encode(Node(name, None, [a, b])) == "(" + name + " " + Encode(a) + " " + Encode(b) + ")"
  {
    var kids := Encodings([a, b]);
    assert kids == [Encode(a)] + [Encode(b)];
    assert [Encode(a)] + [Encode(b)] == [Encode(a), Encode(b)];
    JoinSnoc([Encode(a)], Encode(b), " ");
  }
}
