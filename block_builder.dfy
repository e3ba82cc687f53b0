/** The Slack block builders: dictionaries of the Block Kit layout. */
module BlockBuilder {
  import opened Wrappers
  import opened Json

  /** A `{"type": kind, "text": text}` object. */
  predicate IsTextObject(j: Json, kind: string, text: string)
  {
    && j.JObject?
    && Keys(j.fields) == ["type", "text"]
    && Get(j.fields, "type") == Some(JString(kind))
    && Get(j.fields, "text") == Some(JString(text))
  }

  /** `write_slack_divider()`: a block whose only key is its type. */
  function WriteSlackDivider(): (b: Json)
    ensures b.JObject? && Keys(b.fields) == ["type"] && Get(b.fields, "type") == Some(JString("divider"))
  {
    JObject([("type", JString("divider"))])
  }

  /** `write_slack_header(message)`: a header block with the message as
      plain text, verbatim. */
  function WriteSlackHeader(message: string): (b: Json)
    ensures b.JObject? && Keys(b.fields) == ["type", "text"]
    ensures Get(b.fields, "type") == Some(JString("header"))
    ensures Get(b.fields, "text").Some? && IsTextObject(Get(b.fields, "text").value, "plain_text", message)
  {
    JObject([("type", JString("header")), ("text", JObject([("type", JString("plain_text")), ("text", JString(message))]))])
  }

  const DefaultAltText := "generic"

  /** Python truthiness of the optional image URL: `None` and `''` are false. */
  predicate HasImage(imageUrl: Option<string>)
  {
    imageUrl.Some? && imageUrl.value != ""
  }

  /** A section block whose markdown text is `message`. */
  predicate IsSection(b: Json, message: string)
  {
    && b.JObject?
    && Get(b.fields, "type") == Some(JString("section"))
    && Get(b.fields, "text").Some? && IsTextObject(Get(b.fields, "text").value, "mrkdwn", message)
  }

  /** The image accessory of a section block. */
  predicate HasAccessory(b: Json, imageUrl: string, altText: string)
  {
    && b.JObject?
    && Keys(b.fields) == ["type", "text", "accessory"]
    && var acc := Get(b.fields, "accessory").value;
    && acc.JObject?
    && Keys(acc.fields) == ["type", "image_url", "alt_text"]
    && Get(acc.fields, "type") == Some(JString("image"))
    && Get(acc.fields, "image_url") == Some(JString(imageUrl))
    && Get(acc.fields, "alt_text") == Some(JString(altText))
  }

  /** What `write_slack_markdown` returns: the section, with the image as
      accessory exactly when the URL is truthy. */
  predicate IsMarkdown(b: Json, message: string, imageUrl: Option<string>, altText: string)
  {
    && IsSection(b, message)
    && (HasImage(imageUrl) ==> HasAccessory(b, imageUrl.value, altText))
    && (!HasImage(imageUrl) ==> Keys(b.fields) == ["type", "text"])
  }

  /** The accessory key is there exactly when there is an image. */
  lemma AccessoryIffImage(b: Json, message: string, imageUrl: Option<string>, altText: string)
    requires IsMarkdown(b, message, imageUrl, altText)
    ensures HasImage(imageUrl) <==> "accessory" in Keys(b.fields)
  {
    if !HasImage(imageUrl) {
      assert "accessory" != "type" && "accessory" != "text";
    }
  }

  function MarkdownText(message: string): Json
  {
    JObject([("type", JString("mrkdwn")), ("text", JString(message))])
  }

  function ImageAccessory(imageUrl: string, altText: string): Json
  {
    JObject([("type", JString("image")), ("image_url", JString(imageUrl)), ("alt_text", JString(altText))])
  }

  /** The section block `write_slack_markdown` returns. */
  function MarkdownBlock(message: string, imageUrl: Option<string>, altText: string): (b: Json)
    ensures IsMarkdown(b, message, imageUrl, altText)
  {
    if HasImage(imageUrl) then
      MarkdownWithImage(message, imageUrl.value, altText);
      JObject([("type", JString("section")), ("text", MarkdownText(message)), ("accessory", ImageAccessory(imageUrl.value, altText))])
    else
      MarkdownWithoutImage(message);
      JObject([("type", JString("section")), ("text", MarkdownText(message))])
  }

  lemma MarkdownWithImage(message: string, imageUrl: string, altText: string)
    ensures var b := JObject([("type", JString("section")), ("text", MarkdownText(message)), ("accessory", ImageAccessory(imageUrl, altText))]);
      IsSection(b, message) && HasAccessory(b, imageUrl, altText)
  {
    var acc := ImageAccessory(imageUrl, altText);
    assert "type" != "text" by { assert "type"[1] != "text"[1]; }
    assert "type" != "accessory" && "text" != "accessory" && "image_url" != "alt_text";
    assert "type" != "image_url" && "type" != "alt_text";
    Lookup2("type", JString("mrkdwn"), "text", JString(message));
    Lookup3("type", JString("image"), "image_url", JString(imageUrl), "alt_text", JString(altText));
    Lookup3("type", JString("section"), "text", MarkdownText(message), "accessory", acc);
  }

  lemma MarkdownWithoutImage(message: string)
    ensures var b := JObject([("type", JString("section")), ("text", MarkdownText(message))]);
      IsSection(b, message) && Keys(b.fields) == ["type", "text"]
  {
    assert "type" != "text" by { assert "type"[1] != "text"[1]; }
    Lookup2("type", JString("mrkdwn"), "text", JString(message));
    Lookup2("type", JString("section"), "text", MarkdownText(message));
  }

  /** `write_slack_markdown(message, image_url, alt_text)`: the section
      block is built first and the accessory is inserted into it afterwards
      when there is an image. */
  method WriteSlackMarkdown(message: string, imageUrl: Option<string>, altText: string) returns (block: Json)
    ensures block == MarkdownBlock(message, imageUrl, altText)
  {
    var fields := [("type", JString("section")), ("text", MarkdownText(message))];
    if HasImage(imageUrl) {
      assert "type" != "text" by { assert "type"[1] != "text"[1]; }
      Lookup2("type", JString("section"), "text", MarkdownText(message));
      assert "accessory" != "type" && "accessory" != "text";
      PutNew(fields, "accessory", ImageAccessory(imageUrl.value, altText));
      fields := Put(fields, "accessory", ImageAccessory(imageUrl.value, altText));
    }
    block := JObject(fields);
  }
}
