/**
 * Rich text as the content store delivers it: a list of blocks, each with an
 * optional style, key and list of child spans; a span has a type and optional text.
 * An absent field is `None` (JavaScript `undefined`).
 */
module PortableText {
  import opened Text

  datatype Span = Span(spanType: Option<string>, text: Option<string>)

  datatype Block = Block(
    blockType: string,
    style: Option<string>,
    key: Option<string>,
    children: Option<seq<Span>>)

  function ChildrenOf(b: Block): seq<Span> {
    if b.children.Some? then b.children.value else []
  }
}
