# Shortcut registry

A model of the text-expansion shortcut registry of the Java sources:

- `Entries` (`entry.dfy`): `ShortcutEntry`, the mutable rule object with an
  identifier, a command, a keyword and an expansion text, its two
  constructors, getters and setters. `Entry` is the value such an object
  holds at one moment; `Uuid` stands for `java.util.UUID`, compared by its
  two 64-bit halves.
- `Manager` (`manager.dfy`): `ShortcutManager`, a class whose `entries`
  field is the ordered rule list. Its methods append, replace the first rule
  with a given identifier in place, remove every rule with an identifier,
  list the rules, and scan them in order for the first rule whose trigger
  (keyword followed by command) the input text ends with. Pure
  specification functions (`FirstMatch`, `Expansion`, `FirstWithId`,
  `Without`) state what the methods compute, and lemmas relate them.
- `Wrappers` (`wrappers.dfy`): `Option`, standing for Java's `null` as the
  input and result of `findExpansion`.

Points worth noting about the Java code:

- A rule fires when the text ENDS with its trigger (`String.endsWith`), not
  when the trigger occurs anywhere in the text. So with rule A (keyword
  "hi", command "!a") listed before rule B (keyword "hi", command "!ab"),
  the text "hi!ab" expands to B's text (`TriggerPriorityExample`).
- `addShortcut` rejects nothing: duplicate identifiers and duplicate
  triggers are both appended.
- `updateShortcut` replaces only the first rule with the identifier and
  reports `false` when there is none; `deleteShortcut` removes every rule
  with the identifier and reports whether any was removed.
- `getEntries` returns the live list itself (read-only), not a copy.

## Model

| member | source | states |
|---|---|---|
| `Entries.ShortcutEntry.constructor` | web/java/src/main/java/com/example/shortcuts/ShortcutEntry.java:18-23 | the four fields hold exactly the arguments, untrimmed and unchecked |
| `Entries.ShortcutEntry.WithGeneratedId` | web/java/src/main/java/com/example/shortcuts/ShortcutEntry.java:14-16 | command, keyword and expansion text are stored as given and the identifier is the generated one |
| `Entries.ShortcutEntry.GetId` | web/java/src/main/java/com/example/shortcuts/ShortcutEntry.java:25-27 | returns the value last stored in the id field |
| `Entries.ShortcutEntry.GetCommand` | web/java/src/main/java/com/example/shortcuts/ShortcutEntry.java:33-35 | returns the value last stored in the command field |
| `Entries.ShortcutEntry.GetKeyword` | web/java/src/main/java/com/example/shortcuts/ShortcutEntry.java:41-43 | returns the value last stored in the keyword field |
| `Entries.ShortcutEntry.GetExpansionText` | web/java/src/main/java/com/example/shortcuts/ShortcutEntry.java:49-51 | returns the value last stored in the expansionText field |
| `Entries.ShortcutEntry.SetId` | web/java/src/main/java/com/example/shortcuts/ShortcutEntry.java:29-31 | the id getter then returns the stored identifier; the other three fields are unchanged |
| `Entries.ShortcutEntry.SetCommand` | web/java/src/main/java/com/example/shortcuts/ShortcutEntry.java:37-39 | the command getter then returns the new command; the other three fields are unchanged |
| `Entries.ShortcutEntry.SetKeyword` | web/java/src/main/java/com/example/shortcuts/ShortcutEntry.java:45-47 | the keyword getter then returns the new keyword; the other three fields are unchanged |
| `Entries.ShortcutEntry.SetExpansionText` | web/java/src/main/java/com/example/shortcuts/ShortcutEntry.java:53-55 | the expansion getter then returns the string verbatim; the other three fields are unchanged |
| `Manager.ShortcutManager.constructor` | web/java/src/main/java/com/example/shortcuts/ShortcutManager.java:12 | a new registry holds no rules |
| `Manager.ShortcutManager.GetEntries` | web/java/src/main/java/com/example/shortcuts/ShortcutManager.java:14-16 | returns the current rules in list order and changes nothing |
| `Manager.ShortcutManager.AddShortcut` | web/java/src/main/java/com/example/shortcuts/ShortcutManager.java:18-20 | the list becomes the old list followed by the entry; no check, every earlier rule keeps its position |
| `Manager.ShortcutManager.UpdateShortcut` | web/java/src/main/java/com/example/shortcuts/ShortcutManager.java:22-30 | returns true iff some rule has the entry's id; then exactly the first such rule is replaced at its index and stays the first with that id; otherwise the list is unchanged |
| `Manager.ShortcutManager.DeleteShortcut` | web/java/src/main/java/com/example/shortcuts/ShortcutManager.java:32-34 | the list becomes the old rules whose id differs; returns true iff at least one rule had that id |
| `Manager.ShortcutManager.FindExpansion` | web/java/src/main/java/com/example/shortcuts/ShortcutManager.java:36-49 | the in-order scan answers exactly `Expansion` of the current rules and the text; the list is not modified |
| `Manager.FirstMatch` | web/java/src/main/java/com/example/shortcuts/ShortcutManager.java:41-45 | the answer is an index whose rule's trigger ends the text with no earlier such rule, or none iff no rule's trigger ends the text |
| `Manager.Expansion` | web/java/src/main/java/com/example/shortcuts/ShortcutManager.java:37-48 | none iff the text is null or no trigger ends it; otherwise the expansion text of the lowest-index rule whose trigger ends the text |
| `Manager.FirstWithId` | web/java/src/main/java/com/example/shortcuts/ShortcutManager.java:23-26 | the index of the first rule with the id, with no earlier one, or none iff no rule has the id |
| `Manager.Without` | web/java/src/main/java/com/example/shortcuts/ShortcutManager.java:33 | keeps exactly the rules whose id differs, never grows, and is the identity iff no rule has the id |
| `Manager.WithoutAppend` | web/java/src/main/java/com/example/shortcuts/ShortcutManager.java:33 | removal distributes over concatenation, so the surviving rules keep their relative order |
| `Manager.WithoutIdempotent` | web/java/src/main/java/com/example/shortcuts/ShortcutManager.java:33 | after a delete no rule has the id, so a second delete with the same id changes nothing |
| `Manager.AppendKeepsFirstMatch` | web/java/src/main/java/com/example/shortcuts/ShortcutManager.java:18-20 | appending a rule never changes which earlier rule fires; the new rule fires only when no earlier one does |
| `Manager.ReplaceKeepsFirstWithId` | web/java/src/main/java/com/example/shortcuts/ShortcutManager.java:23-26 | replacing the first rule with an id by an entry with that id leaves it the first with that id |
| `Manager.AppendFreshIdIsFirst` | web/java/src/main/java/com/example/shortcuts/ShortcutManager.java:18-26 | a rule appended with an id no earlier rule has is the one a later update with that id replaces |
| `Manager.MatchesIffSplit` | web/java/src/main/java/com/example/shortcuts/ShortcutManager.java:42-43 | a rule fires on a text exactly when the text is some prefix followed by keyword + command |
| `Manager.SuffixNotSubstring` | web/java/src/main/java/com/example/shortcuts/ShortcutManager.java:43 | for the rule with keyword "hello" and command "!sc": the text "hello!sc!", which contains the trigger but does not end with it, does not fire, while "say hello!sc" does |
| `Manager.TriggerPriorityExample` | web/java/src/main/java/com/example/shortcuts/ShortcutManager.java:41-45 | with "hi"+"!a" listed before "hi"+"!ab", the text "hi!ab" yields the second rule's text and "hi!a" the first's |

## Left out

- The identifier generator `UUID.randomUUID()` is random; the three-argument constructor takes the generated identifier as a parameter.
- Reference aliasing: `addShortcut` and `updateShortcut` store the caller's object in Java, so later setter calls on it would change the registry; the model stores the object's value at the time of the call.
- `getEntries` returns an unmodifiable live view in Java; the model returns the sequence value, and the `UnsupportedOperationException` raised by writes through the view is not modelled.
- Java `null` is modelled only for the input and result of `findExpansion`; model strings and identifiers are never null. In the Java code a null identifier passed to `deleteShortcut`, or carried by the entry given to `updateShortcut`, matches no rule (`equals(null)` is false), so the call returns false; a `NullPointerException` arises only when a stored rule has a null identifier, when `addShortcut(null)` stored a null entry, or when `updateShortcut(null)` is called (while the list is non-empty); a null keyword or command contributes the text "null" to the trigger.
- Expansion: its "none iff no trigger ends the text" holds only because expansion texts are never null here; in Java, if the first rule that fires has a null expansion text, `findExpansion` returns null, indistinguishable from no match, and later rules are not consulted.
- EndsWith: Dafny strings are sequences of Unicode scalar values, while a Java `String` is UTF-16 and may hold unpaired surrogates; the suffix test agrees with `String.endsWith` on well-formed strings only.
- The React page and the TypeScript library it imports (with the trimming of command and keyword before a rule is built) are not part of this model.
