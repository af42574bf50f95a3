/**
 * A shortcut rule: an identifier, a command, a keyword and the text the
 * rule expands to (ShortcutEntry.java).
 */
module Entries {

  /** A java.util.UUID, compared (as UUID.equals does) by its two 64-bit halves. */
  datatype Uuid = Uuid(mostSigBits: bv64, leastSigBits: bv64)

  /** The value held by a ShortcutEntry object at one moment. */
  datatype Entry = Entry(id: Uuid, command: string, keyword: string, expansionText: string)

  /** The mutable rule object: four private fields, each with a getter and a setter. */
  class ShortcutEntry {
    var id: Uuid
    var command: string
    var keyword: string
    var expansionText: string

    /** The four-argument constructor: stores every argument as given, unchecked. */
    constructor (id: Uuid, command: string, keyword: string, expansionText: string)
      ensures Value() == Entry(id, command, keyword, expansionText)
    {
      this.id := id;
      this.command := command;
      this.keyword := keyword;
      this.expansionText := expansionText;
    }

    /**
     * The three-argument constructor. Java draws the identifier from
     * UUID.randomUUID(); here the generator's output is the parameter `generated`.
     */
    constructor WithGeneratedId(command: string, keyword: string, expansionText: string, generated: Uuid)
      ensures Value() == Entry(generated, command, keyword, expansionText)
    {
      this.id := generated;
      this.command := command;
      this.keyword := keyword;
      this.expansionText := expansionText;
    }

    /** The fields as one value. */
    function Value(): Entry
      reads this
    {
      Entry(id, command, keyword, expansionText)
    }

    function GetId(): (r: Uuid)
      reads this
      ensures r == Value().id
    {
      id
    }

    function GetCommand(): (r: string)
      reads this
      ensures r == Value().command
    {
      command
    }

    function GetKeyword(): (r: string)
      reads this
      ensures r == Value().keyword
    {
      keyword
    }

    function GetExpansionText(): (r: string)
      reads this
      ensures r == Value().expansionText
    {
      expansionText
    }

    method SetId(id: Uuid)
      modifies this
      ensures GetId() == id
      ensures Value() == old(Value()).(id := id)
    {
      this.id := id;
    }

    method SetCommand(command: string)
      modifies this
      ensures GetCommand() == command
      ensures Value() == old(Value()).(command := command)
    {
      this.command := command;
    }

    method SetKeyword(keyword: string)
      modifies this
      ensures GetKeyword() == keyword
      ensures Value() == old(Value()).(keyword := keyword)
    {
      this.keyword := keyword;
    }

    method SetExpansionText(expansionText: string)
      modifies this
      ensures GetExpansionText() == expansionText
      ensures Value() == old(Value()).(expansionText := expansionText)
    {
      this.expansionText := expansionText;
    }
  }
}
