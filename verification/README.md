# Models of the bundled JavaScript

Connichiwa serves web pages from a device; its own Objective-C is published as headers, and the
logic in the repository is the JavaScript it bundles: a template compiler, a block cipher, Node's streams and
HTTP server, jQuery's callbacks and selector engine, and a few codecs. This project models that logic in Dafny and proves
what the code promises.

- **Handlebars compiler** (`Handlebars*.dfy`). Syntax tree, opcodes, the split symbolic stack with its reused
  temporaries, the lines and functions that are emitted, an evaluator for them and a reference interpreter of the tree. The
  result is that compiling preserves meaning, down to the order of helper calls, for every template of content,
  mustaches, paths, sub-expressions, hashes and blocks. Helpers are arbitrary functions that get the programs of their
  block as values and may change an abstract world. Beside it: the stack discipline under every option set, exactly which
  templates compile, exactly which hash pairs reach a helper, exactly which names survive being written as code, what single mustaches, paths and blocks come to, the sharing of program slots, and the classes `Compiler`, `JavaScriptCompiler` and `Context` proved against these functions.
- **AES** (`Aes*.dfy`). The walk that generates the tables, the two key schedules, and the table-driven rounds, refined
  to FIPS 197; decryption undoes encryption in memory.
- **Writable streams** (`Writable*.dfy`). A state machine over public calls, completions of the sink and the phases of
  `afterWrite`, and a class that does the same to its fields. Writers that are told to wait are woken. One promise does not hold of the code: an empty chunk that is
  buffered while the stream is ending keeps 'finish' from ever being emitted. The project has the run, and proves
  exactly when 'finish' comes.
- **HTTP pipelining** (`Pipeline*.dfy`). Many responses, one socket, handlers in any order; the wire carries them in
  request order, a client reads from it the data the handlers asked for, and a last response closes it. `write` does not look at
  `finished`; the project proves exactly when a write after the end changes what goes out.
- **jQuery** (`Callbacks*.dfy`, `Deferred*.dfy`, `Sizzle*.dfy`). The firing cursor under re-entrant changes, the queue of
  fires, deferreds that settle once, the ancestor cache with its shared cells, and the cached position of `:nth-child`. `empty` during a firing does not
  move the cursor back; the project proves exactly when a callback added after it is still called.
- **PassThrough streams** (`PassThrough*.dfy`). Both halves of the stream, with every synchronous call nested as in Node
  and every tick a step; no byte is lost, doubled or overtaken, none stays behind, a reader gets what it asks for, and one that waits is told.
- **Base64, the debugger's wire protocol, the idle list** (`Base64*.dfy`, `Debugger*.dfy`, `LinkedList*.dfy`). With a negative
  `Content-Length` the protocol may depend on how the text is split and need not come to an end; the project has an input for
  either, and proves for every frame exactly when.

Each component has its own modules: the data and the steps, the invariants, the theorems, and, where the source
updates objects, a class whose methods are proved equal to the steps.

Where the state machines let callbacks call back in, the return of a callback, a completion or a flush is a step of its
own, and steps come in any order. That allows every order the event loop can produce, and more.

## Model

| member | source | states |
|---|---|---|
| HandlebarsTemplate.TemplateCorrect | ConnichiwaResources/scripts/handlebars-v3.0.3.js:1029-1130 | End to end, for every template whose heads fit (HandlebarsOptions.TemplateCompiles) and whose names are read back from the code (HandlebarsNames.NameReadBack): the compiler emits code, and running the compiled programs gives the reference meaning of the syntax tree: the same text, the same helper calls and property lookups, whose getters may change the world or throw, in the same order, the same exceptions |
| HandlebarsDefined.ProgramDefined | ConnichiwaResources/scripts/handlebars-v3.0.3.js:1030-1130 | Run with helpers that give text, getters, functions and escaping that are defined, a program all of whose mustaches are escaped has a meaning inside the model, whatever it is called with |
| HandlebarsDefined.EscapedExactly | ConnichiwaResources/scripts/handlebars-v3.0.3.js:1029-1130 | So the code of such a template does exactly what the template means |
| HandlebarsLaws.CalledFrame | ConnichiwaResources/scripts/handlebars-v3.0.3.js:2878-2885 | A program made of `{{@name}}` prints the property `name` of the frame it is called with if that is truthy, and else that of the frame it was made with |
| HandlebarsLaws.CalledFrameCode | ConnichiwaResources/scripts/handlebars-v3.0.3.js:2878-2885 | So does the program that emitted code hands to a helper |
| HandlebarsLaws.CalledContexts | ConnichiwaResources/scripts/handlebars-v3.0.3.js:2878-2885 | `{{this}}` in a program prints the context it is called with, `{{..}}` that of the program around it, and so on outwards |
| HandlebarsLaws.ParentFrames | ConnichiwaResources/scripts/handlebars-v3.0.3.js:2813-2818 | `@../name` looks as many parents outwards as are written, or up to the first frame that is falsy |
| HandlebarsLaws.ChainRead | ConnichiwaResources/scripts/handlebars-v3.0.3.js:1362-1430 | A path takes the property of the value before, one name after the other; null and undefined end it, and other falsy values end that of a helper or a data name |
| HandlebarsLaws.FieldPath | ConnichiwaResources/scripts/handlebars-v3.0.3.js:667-670 | A path of several names, or one written with `./` or `this`, never calls a helper: it gives what its properties lead to, and a function found there is called with the context |
| HandlebarsLaws.SimpleName | ConnichiwaResources/scripts/handlebars-v3.0.3.js:652-665 | `{{name}}`: the helper of that name, or else the property of the context, or else `helperMissing`; a function is called without parameters, anything else is the value |
| HandlebarsLaws.KnownName | ConnichiwaResources/scripts/handlebars-v3.0.3.js:759-785 | A name that is declared to be that of a helper is called without looking at the context, and fails if there is none |
| HandlebarsLaws.ParamsInOrder | ConnichiwaResources/scripts/handlebars-v3.0.3.js:795-799 | Parameters are evaluated from left to right, each in the world that the one before has left |
| HandlebarsLaws.HelperBlock | ConnichiwaResources/scripts/handlebars-v3.0.3.js:672-687 | A helper is called once, with the context, the values of its parameters, its name, and its branches; a branch that is not written prints nothing |
| HandlebarsLaws.FieldBlock | ConnichiwaResources/scripts/handlebars-v3.0.3.js:1269-1281 | `{{#name}}` without such a helper hands the property to `blockHelperMissing`, with its branches |
| HandlebarsLaws.PathBlock | ConnichiwaResources/scripts/handlebars-v3.0.3.js:1252-1262 | `{{#a.b}}` hands what the path leads to, called with the context if it is a function, to `blockHelperMissing`, with its branches |
| HandlebarsLaws.FalsyValues | ConnichiwaResources/scripts/handlebars-v3.0.3.js:2813-2818 | The values that count as false |
| HandlebarsLaws.ScopedIs | ConnichiwaResources/scripts/handlebars-v3.0.3.js:354-358 | A name is scoped if and only if it begins with a dot or holds the word `this` |
| HandlebarsLaws.CodePrints | ConnichiwaResources/scripts/handlebars-v3.0.3.js:1029-1130 | Whatever a template means, its code does, if the meaning is inside the model |
| HandlebarsNames.NameReadBack | ConnichiwaResources/scripts/handlebars-v3.0.3.js:987-993 | Of the text that `nameLookup` writes JavaScript reads the name back if and only if it is an unreserved identifier or contains no quote, backslash or line end |
| HandlebarsNames.NamesMisread | ConnichiwaResources/scripts/handlebars-v3.0.3.js:987-993 | `it's` gives text that is no lookup, and `a\b` looks up another name |
| HandlebarsNames.QuotedReadBack | ConnichiwaResources/scripts/handlebars-v3.0.3.js:4076-4080 | The text of `quotedString` is read back for every string |
| HandlebarsExprs.LookupExactly | ConnichiwaResources/scripts/handlebars-v3.0.3.js:987-993 | A lookup in the generated code finds the property of the name that was written exactly if that name is read back |
| HandlebarsPairs.KeptExactly | ConnichiwaResources/scripts/handlebars-v3.0.3.js:1644-1669 | Exactly which pairs of a hash reach a helper, since the compiler collects them in an array, last pair first: not `length` or `__proto__`, not a key that an earlier pair has, not an index that an earlier `length` cuts off; index keys come first, by number |
| HandlebarsPairs.KeptIndexes | ConnichiwaResources/scripts/handlebars-v3.0.3.js:4082-4098 | No key is listed twice, and keys that are array indexes come first, by number |
| HandlebarsPairs.IndexIs | ConnichiwaResources/scripts/handlebars-v3.0.3.js:1644-1669 | The keys that an array lists by number are the decimal numerals of the numbers below 2^32 - 1 (section 15.4 of ECMA-262, edition 5.1) |
| HandlebarsPairs.KeptOrder | ConnichiwaResources/scripts/handlebars-v3.0.3.js:1644-1669 | The other keys come, and their values are evaluated, in the order of their last pairs, the last one first |
| HandlebarsPairs.AllLand | ConnichiwaResources/scripts/handlebars-v3.0.3.js:1644-1669 | Every pair reaches the helper if and only if the keys are distinct and none is `length` or `__proto__` |
| HandlebarsPairs.LengthLost | ConnichiwaResources/scripts/handlebars-v3.0.3.js:1644-1669 | `{{a length=5}}` hands the helper an empty object |
| HandlebarsPairs.IndexesFirst | ConnichiwaResources/scripts/handlebars-v3.0.3.js:4082-4098 | `{{a 0=x 1=y}}` evaluates `x` first, `{{a b=x c=y}}` evaluates `y` first |
| HandlebarsProgram.ProgramCorrect | ConnichiwaResources/scripts/handlebars-v3.0.3.js:1060-1130 | For one program whose heads fit and whose names are read back, the function assembled for it returns what interpreting its statements prints |
| HandlebarsOptions.TemplateCompiles | ConnichiwaResources/scripts/handlebars-v3.0.3.js:1060-1085 | Under every option set, the compiler emits code for a whole template if and only if every head anywhere in it fits: `stringParams` and `trackIds` are not both on or it has neither parameters nor hash pairs, no hash key is `hasOwnProperty`, and `length` has a value that can be the length of an array, with neither option on |
| HandlebarsOptions.KeysFail | ConnichiwaResources/scripts/handlebars-v3.0.3.js:1644-1669 | `{{a length=b}}` and `{{a hasOwnProperty=b}}` do not compile under any option set |
| HandlebarsOptions.LengthCompiles | ConnichiwaResources/scripts/handlebars-v3.0.3.js:1644-1669 | `{{a length=5}}` compiles if and only if neither of the two options is on |
| HandlebarsOptions.BodyCompiles | ConnichiwaResources/scripts/handlebars-v3.0.3.js:1060-1085 | The same for the opcodes of one program: none fails and nothing is left on the stack if and only if its own heads fit |
| HandlebarsOptions.BothOptionsFail | ConnichiwaResources/scripts/handlebars-v3.0.3.js:801-840 | The template `{{a "b"}}` does not compile with both options on |
| HandlebarsOptions.TemplateSlots | ConnichiwaResources/scripts/handlebars-v3.0.3.js:1687-1724 | Under every option set, if a template compiles, no slot was overwritten by another program and no two slots hold the same program |
| HandlebarsTable.CompileEnvOk | ConnichiwaResources/scripts/handlebars-v3.0.3.js:1687-1724 | Under every option set: if nested programs compile into the shared table, every placeholder holds its own program, all earlier slots are kept, and every child has an index that holds its code; they do compile if the opcodes of each program do by themselves |
| HandlebarsTable.EnvNoDuplicates | ConnichiwaResources/scripts/handlebars-v3.0.3.js:1687-1724 | Nested pushes of placeholders never create a second slot for a program that is already there |
| HandlebarsTable.SharedExactlyWhenSame | ConnichiwaResources/scripts/handlebars-v3.0.3.js:1717-1724 | Two programs get the same index exactly if they are recursively the same |
| HandlebarsEnvironments.EqualsDecides | ConnichiwaResources/scripts/handlebars-v3.0.3.js:459-483 | On environments the compiler builds, `equals` never reads a child that is not there, and answers exactly whether two programs are recursively the same |
| HandlebarsEnvironments.CompilerEnvGood | ConnichiwaResources/scripts/handlebars-v3.0.3.js:520-556 | Under every option set, every environment the compiler builds has one child for each program index its opcodes mention, at every depth |
| HandlebarsEnvironments.BodyOps | ConnichiwaResources/scripts/handlebars-v3.0.3.js:534-640 | Under every option set, how many programs, outputs and uses of depths the opcodes of a list of statements have, from the statements alone |
| HandlebarsEnvironments.SameCodeUses | ConnichiwaResources/scripts/handlebars-v3.0.3.js:751-757 | Programs with the same opcodes agree on whether they need the stack of contexts, so sharing a slot is safe |
| HandlebarsStmts.RunBody | ConnichiwaResources/scripts/handlebars-v3.0.3.js:541-592 | Running the opcodes of a list of statements emits exactly the lines of a direct translation, and leaves both stacks and the hash stack empty, if its heads fit |
| HandlebarsStmts.CompileProgram | ConnichiwaResources/scripts/handlebars-v3.0.3.js:1060-1085 | Running all opcodes of a program whose heads fit succeeds, with exactly the lines of the direct translation: nothing is left on the stack, and no popped or replaced entry is missing |
| HandlebarsLocals.LinesDeclared | ConnichiwaResources/scripts/handlebars-v3.0.3.js:1136-1142 | Whatever opcodes compile, under whatever options, every temporary and register that the emitted lines read or write is declared |
| HandlebarsLocals.ProgramDeclared | ConnichiwaResources/scripts/handlebars-v3.0.3.js:1136-1142 | So it is for the function of every program that compiles |
| HandlebarsStmts.RunStmt | ConnichiwaResources/scripts/handlebars-v3.0.3.js:558-640 | The opcodes of one statement whose head fits emit the lines of that statement from an empty stack and end on an empty stack |
| HandlebarsTranslate.RunSexpr | ConnichiwaResources/scripts/handlebars-v3.0.3.js:640-687 | The opcodes of any mustache, sub-expression or block head that fits, on any stack, push exactly one expression, the direct translation, and nothing below it changes |
| HandlebarsTranslate.RunParam | ConnichiwaResources/scripts/handlebars-v3.0.3.js:801-840 | A parameter pushes its value and, with `stringParams` or `trackIds`, its companions |
| HandlebarsOpcodes.StringParamIs | ConnichiwaResources/scripts/handlebars-v3.0.3.js:801-808 | With `stringParams` a path or string is passed without the `./` and `../` it begins with, and with a dot for every slash |
| HandlebarsOpcodes.IdTextIs | ConnichiwaResources/scripts/handlebars-v3.0.3.js:829-836 | With `trackIds` a path is passed as it is written but for a `./` before it, and the context itself as the empty text |
| HandlebarsTranslate.RunHash | ConnichiwaResources/scripts/handlebars-v3.0.3.js:730-744 | A hash whose keys an array takes pushes one object made of what assigning its pairs leaves, and the hash under construction before it is restored |
| HandlebarsTranslate.RunPath | ConnichiwaResources/scripts/handlebars-v3.0.3.js:689-708 | A path pushes the chain of lookups it stands for |
| HandlebarsTranslate.SetupParamsInline | ConnichiwaResources/scripts/handlebars-v3.0.3.js:1912-1971 | Popping the parameters of a call from the inline stack gives them in source order, with programs and hash in their places |
| HandlebarsDiscipline.StepReady | ConnichiwaResources/scripts/handlebars-v3.0.3.js:1480-1504 | Under every option set an opcode fails if and only if something it needs is not there, an array does not take a length, or its `hasOwnProperty` has been assigned; it is "Invalid stack pop" if and only if fewer entries are there than it pops, and never "replaceStack on non-inline" |
| HandlebarsDiscipline.StepEffect | ConnichiwaResources/scripts/handlebars-v3.0.3.js:1252-1669 | Every opcode that does not fail, under every option set, pops and pushes its documented number of entries of the logical stack, keeps what is below (`ambiguousBlockValue` turns what is not a literal there into temporaries), and keeps `stackSlot` equal to the number of entries of `compileStack` that are not literals |
| HandlebarsDiscipline.RunNet | ConnichiwaResources/scripts/handlebars-v3.0.3.js:1060-1085 | A run of opcodes that does not fail changes the height of the logical stack by the sum of their documented effects; one that fails with "Invalid stack pop" had too few entries, and none fails with "replaceStack on non-inline" |
| HandlebarsDiscipline.ExactlyIfFits | ConnichiwaResources/scripts/handlebars-v3.0.3.js:1912-1971 | The opcodes of a mustache or block head run without error if and only if it fits: `stringParams` and `trackIds` are not both on or there are neither parameters nor hash pairs, and an array takes all keys of its hashes |
| HandlebarsDiscipline.NetSexpr | ConnichiwaResources/scripts/handlebars-v3.0.3.js:640-687 | Exactly how many entries the opcodes of a head leave, and how many are missing when both options are on |
| HandlebarsExprs.SexprCorrect | ConnichiwaResources/scripts/handlebars-v3.0.3.js:640-687 | The expression built for a helper call or a simple path evaluates to what the interpreter gives, with the same effects, and does not touch temporaries that are still needed |
| HandlebarsExprs.AmbiguousCorrect | ConnichiwaResources/scripts/handlebars-v3.0.3.js:1582-1599 | The expression built for an ambiguous name calls the helper if there is one and otherwise gives the looked-up value, as the interpreter does, and leaves the options a block needs in their register |
| HandlebarsExprs.PathCorrect | ConnichiwaResources/scripts/handlebars-v3.0.3.js:1362-1430 | The lookup chain of a path whose names are read back evaluates to the interpreted path, guards against missing parents included |
| HandlebarsExprs.CallCorrect | ConnichiwaResources/scripts/handlebars-v3.0.3.js:1544-1556 | A helper call passes the interpreted arguments, hash and programs |
| HandlebarsExprs.PairsKept | ConnichiwaResources/scripts/handlebars-v3.0.3.js:4082-4098 | The object the opcodes build has exactly the pairs that reach the helper, in their order |
| HandlebarsOutput.StmtCorrect | ConnichiwaResources/scripts/handlebars-v3.0.3.js:1252-1332 | Executing the lines of a statement prints what interpreting it prints |
| HandlebarsOutput.BodyCorrect | ConnichiwaResources/scripts/handlebars-v3.0.3.js:1289-1332 | Executing the lines of a list of statements prints the pieces in order, pending text included |
| HandlebarsOutput.AmbiguousBlockCorrect | ConnichiwaResources/scripts/handlebars-v3.0.3.js:1269-1281 | The temporary of an ambiguous block holds the value that decides the branch and is passed to `blockHelperMissing` |
| HandlebarsOutput.OneOutputCorrect | ConnichiwaResources/scripts/handlebars-v3.0.3.js:1004-1022 | In a program with a single output, the returned expression is what the statements print |
| HandlebarsOutput.ExecConcat | ConnichiwaResources/scripts/handlebars-v3.0.3.js:1760-1769 | Running two runs of lines that do not return is running their concatenation |
| HandlebarsMerge.MergeStartCorrect | ConnichiwaResources/scripts/handlebars-v3.0.3.js:1185-1241 | In every shape that joining the appends gives, the assembled function returns all appended pieces in order |
| HandlebarsMerge.MergeFromCorrect | ConnichiwaResources/scripts/handlebars-v3.0.3.js:1185-1241 | Joined appends after the start of the buffer add the same text as the single lines |
| HandlebarsMerge.AddCorrect | ConnichiwaResources/scripts/handlebars-v3.0.3.js:1185-1241 | A sum of pieces added to the buffer at once is the pieces added one by one |
| HandlebarsProgram.MergeSource | ConnichiwaResources/scripts/handlebars-v3.0.3.js:1185-1241 | The loop over the source lines yields exactly the joined form that is proved correct, for simple and other programs |
| HandlebarsCompiler.Compiler.Compile | ConnichiwaResources/scripts/handlebars-v3.0.3.js:487-532 | The compiler object yields the environment of the program: opcodes, children and use of depths |
| HandlebarsCompiler.Compiler.Statement | ConnichiwaResources/scripts/handlebars-v3.0.3.js:558-640 | Visiting a statement appends its opcodes and adds its programs as children |
| HandlebarsCompiler.Compiler.SubExpression | ConnichiwaResources/scripts/handlebars-v3.0.3.js:640-665 | Visiting a call appends the opcodes of its classification |
| HandlebarsCompiler.Compiler.HelperSexpr | ConnichiwaResources/scripts/handlebars-v3.0.3.js:672-687 | A helper call appends the opcodes of its parameters, programs, hash and callee in that order |
| HandlebarsCompiler.Compiler.PushParam | ConnichiwaResources/scripts/handlebars-v3.0.3.js:801-840 | A parameter appends its opcodes for every option set |
| HandlebarsJavaScriptCompiler.JavaScriptCompiler.Execute | ConnichiwaResources/scripts/handlebars-v3.0.3.js:1252-1669 | Executing an opcode changes stacks, hashes, pending text and lines as its step function says, and fails exactly when that does |
| HandlebarsJavaScriptCompiler.JavaScriptCompiler.Assign | ConnichiwaResources/scripts/handlebars-v3.0.3.js:1644-1669 | Pops a value with its companions into the arrays of the current hash, and fails if one of them cannot be the length it is assigned to |
| HandlebarsJavaScriptCompiler.JavaScriptCompiler.CompileOpcodes | ConnichiwaResources/scripts/handlebars-v3.0.3.js:1060-1130 | The loop over the opcodes, the final flush and the check for content left on the stack |
| HandlebarsJavaScriptCompiler.JavaScriptCompiler.Pop | ConnichiwaResources/scripts/handlebars-v3.0.3.js:1839-1855 | Pops from the inline stack first; frees a temporary exactly when a non-literal entry of `compileStack` is popped |
| HandlebarsJavaScriptCompiler.JavaScriptCompiler.ReplaceStack | ConnichiwaResources/scripts/handlebars-v3.0.3.js:1771-1808 | Replaces the top inline entry, reusing the next temporary when it is not a literal |
| HandlebarsJavaScriptCompiler.JavaScriptCompiler.FlushInline | ConnichiwaResources/scripts/handlebars-v3.0.3.js:1820-1833 | Moves the inline entries to `compileStack`, each that is not a literal into a temporary of its own |
| HandlebarsJavaScriptCompiler.Context.MatchExistingProgram | ConnichiwaResources/scripts/handlebars-v3.0.3.js:1717-1724 | The first slot that holds an equal program, if any |
| HandlebarsJavaScriptCompiler.Context.CompileChildren | ConnichiwaResources/scripts/handlebars-v3.0.3.js:1687-1715 | Compiles the children into the shared table and gives the index of each |
| AesField.PowersMultiply | Connichiwa.xcodeproj/..Nodelike/lib/cjs-aes.js:76-82 | Steps of the generator add up as exponents do: the walk multiplies by a fixed element of GF(2^8) |
| AesField.WalksInverse | Connichiwa.xcodeproj/..Nodelike/lib/cjs-aes.js:76-82 | After any number of steps the product of `x` and `xi` is 1 |
| AesWalk.NoEarlyReturn | Connichiwa.xcodeproj/..Nodelike/lib/cjs-aes.js:47-83 | The walk does not come back to 1 in fewer than 255 steps |
| AesWalk.EveryByte | Connichiwa.xcodeproj/..Nodelike/lib/cjs-aes.js:47-83 | Every byte is the `x` of one of the 256 rows, so every table entry gets written |
| AesWalk.RowsDiffer | Connichiwa.xcodeproj/..Nodelike/lib/cjs-aes.js:47-83 | No two of the 256 rows have the same `x` or the same `xi` |
| AesSpec.InverseUnique | Connichiwa.xcodeproj/..Nodelike/lib/cjs-aes.js:47-54 | A byte has one inverse in GF(2^8) |
| AesSpec.RowHasInverse | Connichiwa.xcodeproj/..Nodelike/lib/cjs-aes.js:47-54 | In each row `xi` is the multiplicative inverse of `x` (section 5.1.1 of FIPS 197) |
| AesSpec.SubInverts | Connichiwa.xcodeproj/..Nodelike/lib/cjs-aes.js:51-55 | The substitution and the inverse substitution undo each other on every byte |
| AesTables.FoldedIsAffine | Connichiwa.xcodeproj/..Nodelike/lib/cjs-aes.js:52-53 | Twelve bits folded to eight are the affine transformation of section 5.1.1 of FIPS 197 |
| AesTables.MixWordIs | Connichiwa.xcodeproj/..Nodelike/lib/cjs-aes.js:63-67 | The word built for encryption is the MixColumns image of one substituted byte |
| AesTables.InvMixWordIs | Connichiwa.xcodeproj/..Nodelike/lib/cjs-aes.js:70-74 | The word built for decryption is the InvMixColumns image of one byte |
| AesGenerate.DoubleTable | Connichiwa.xcodeproj/..Nodelike/lib/cjs-aes.js:37-45 | Entry b of the table of doubles is b times x in GF(2^8) |
| AesGenerate.Generate | Connichiwa.xcodeproj/..Nodelike/lib/cjs-aes.js:36-84 | All ten tables are complete and hold substitution, and substitution followed by MixColumns, for every byte, forward and inverse |
| AesCipher.RconIs | Connichiwa.xcodeproj/..Nodelike/lib/cjs-aes.js:87 | The round constants are the powers of x (section 5.2 of FIPS 197) |
| AesCipher.AES.ComputeKeySchedule | Connichiwa.xcodeproj/..Nodelike/lib/cjs-aes.js:103-129 | The key loop computes the expanded key of section 5.2 of FIPS 197, for keys of 128, 192 and 256 bits |
| AesCipher.AES.ComputeInvKeySchedule | Connichiwa.xcodeproj/..Nodelike/lib/cjs-aes.js:132-148 | The inverse schedule holds the round keys in reverse, second and fourth columns exchanged, InvMixColumns applied to all but the outermost two |
| AesCipher.InverseRowIs | Connichiwa.xcodeproj/..Nodelike/lib/cjs-aes.js:133-147 | The index arithmetic of the inverse schedule picks that column of that round key |
| AesCipher.AES.DoReset | Connichiwa.xcodeproj/..Nodelike/lib/cjs-aes.js:93-149 | Both schedules belong to the key |
| AesCipher.AES.DoCryptBlock | Connichiwa.xcodeproj/..Nodelike/lib/cjs-aes.js:169-208 | The table-driven rounds on four words in memory are SubBytes, ShiftRows, MixColumns and AddRoundKey; memory outside the block is unchanged |
| AesCipher.AES.EncryptBlock | Connichiwa.xcodeproj/..Nodelike/lib/cjs-aes.js:151-153 | The block in memory becomes the cipher of section 5.1 of FIPS 197 of it |
| AesCipher.AES.DecryptBlock | Connichiwa.xcodeproj/..Nodelike/lib/cjs-aes.js:155-167 | The block in memory becomes the inverse cipher of section 5.3 of FIPS 197 of it |
| AesCipher.FullRound | Connichiwa.xcodeproj/..Nodelike/lib/cjs-aes.js:185-188 | Sixteen lookups and the round key are one round of the cipher, in either direction |
| AesSchedule.LookupMixes | Connichiwa.xcodeproj/..Nodelike/lib/cjs-aes.js:185-188 | Four lookups substitute and mix one column |
| AesSchedule.CryptForward | Connichiwa.xcodeproj/..Nodelike/lib/cjs-aes.js:151-153 | On the expanded key the rounds are the cipher of section 5.1 |
| AesSchedule.CryptBackward | Connichiwa.xcodeproj/..Nodelike/lib/cjs-aes.js:155-167 | On the inverse schedule and exchanged columns the encryption routine is the inverse cipher (section 5.3.5 of FIPS 197) |
| AesSchedule.SwappedRound | Connichiwa.xcodeproj/..Nodelike/lib/cjs-aes.js:155-167 | One encryption round on exchanged columns with a transformed key is one round of the inverse cipher |
| AesInverse.MixInverts | Connichiwa.xcodeproj/..Nodelike/lib/cjs-aes.js:70-74 | InvMixColumns undoes MixColumns and the other way round, on every column |
| AesInverse.InvCipherRestores | Connichiwa.xcodeproj/..Nodelike/lib/cjs-aes.js:151-167 | The inverse cipher restores every block, for every key and number of rounds |
| AesInverse.CipherRestores | Connichiwa.xcodeproj/..Nodelike/lib/cjs-aes.js:151-167 | The cipher restores every block that was decrypted |
| AesCipher.RoundTrip | Connichiwa.xcodeproj/..Nodelike/lib/cjs-aes.js:93-208 | Under any key of the three sizes, decrypting after encrypting, or the other way round, leaves all of memory as it was |
| WritableTheorems.SentInOrder | Connichiwa.xcodeproj/..Nodelike/lib/_stream_writable.js:233-286 | In every run chunks reach the sink once each in the order written, and `length` is the size in flight plus the size buffered |
| WritableTheorems.CalledOnce | Connichiwa.xcodeproj/..Nodelike/lib/_stream_writable.js:318-324 | In every run each callback is called at most once |
| WritableTheorems.PendingCounts | Connichiwa.xcodeproj/..Nodelike/lib/_stream_writable.js:318-356 | `pendingcb` counts the writes whose callback is still to come, and one more for each `_writev` that has not begun calling its own |
| WritableTheorems.FinishedLast | Connichiwa.xcodeproj/..Nodelike/lib/_stream_writable.js:423-448 | 'finish' is emitted at most once, only after the end was announced, everything was sent and every callback was called |
| WritableTheorems.FinishedUnlessLeft | Connichiwa.xcodeproj/..Nodelike/lib/_stream_writable.js:298-324 | In a quiescent, ended, uncorked stream 'finish' has been emitted if and only if the buffer is empty, and what is left can only be empty chunks |
| WritableTheorems.NonEmptyFinishes | Connichiwa.xcodeproj/..Nodelike/lib/_stream_writable.js:423-460 | If no empty chunk was written, or in object mode, 'finish' has been emitted in every quiescent, ended, uncorked state |
| WritableTheorems.EmptyChunkSticks | Connichiwa.xcodeproj/..Nodelike/lib/_stream_writable.js:298-306 | A run in which an empty chunk, written while the sink is busy, is never written, its callback is never called and 'finish' is never emitted |
| WritableTheorems.StaysStuck | Connichiwa.xcodeproj/..Nodelike/lib/_stream_writable.js:298-306 | From such a state only another `cork` and `uncork` leads on |
| WritableTheorems.LeftBehind | Connichiwa.xcodeproj/..Nodelike/lib/_stream_writable.js:298-306 | A completed write leaves buffered chunks unserved if and only if the stream is corked, or it is ending and only empty chunks are left |
| WritableTheorems.LeftRun | Connichiwa.xcodeproj/..Nodelike/lib/_stream_writable.js:298-306 | Exactly which runs end with chunks left in an ended, uncorked, idle stream: those in which a completion after the end found only empty chunks in the buffer of the uncorked stream, with no `cork` since |
| WritableTheorems.UnfinishedRuns | Connichiwa.xcodeproj/..Nodelike/lib/_stream_writable.js:298-324 | In a quiescent, ended, uncorked stream 'finish' has not been emitted if and only if the run is one of those |
| WritableTheorems.AllTaken | Connichiwa.xcodeproj/..Nodelike/lib/_stream_writable.js:298-316 | In a quiescent stream neither ended nor corked everything written has been handed to the sink |
| WritableSignals.DrainOwed | Connichiwa.xcodeproj/..Nodelike/lib/_stream_writable.js:240-244 | In every run `needDrain` holds if and only if a write was refused, that is, reached the mark, since 'drain' was last emitted |
| WritableSignals.DrainOnlyIfOwed | Connichiwa.xcodeproj/..Nodelike/lib/_stream_writable.js:318-334 | 'drain' is emitted only if a write was refused since the last one, nothing is left to be taken, and the completion did not find the stream about to finish |
| WritableSignals.WriterWoken | Connichiwa.xcodeproj/..Nodelike/lib/_stream_writable.js:326-334 | Every writer that was told to wait is woken: in a quiescent stream neither ended nor corked 'drain' has been emitted since every write that was refused |
| WritableSignals.Prefinished | Connichiwa.xcodeproj/..Nodelike/lib/_stream_writable.js:431-448 | 'prefinish' is emitted at most once, when the stream has been ended and only empty chunks are left, before 'finish'; no quiescent, ended, uncorked stream is without it |
| WritableCalls.AcceptedIs | Connichiwa.xcodeproj/..Nodelike/lib/_stream_writable.js:173-198 | In every run exactly the chunks given before the first `end` or with it are accepted, in the order given |
| WritableCalls.OneAtATime | Connichiwa.xcodeproj/..Nodelike/lib/_stream_writable.js:359-378 | Without `_writev` the sink gets one chunk at a time |
| WritableCalls.AllAtOnce | Connichiwa.xcodeproj/..Nodelike/lib/_stream_writable.js:341-357 | With `_writev` the last `uncork` of an idle stream hands over all buffered chunks, if there is more than one, in a single call |
| WritableCalls.CorkHolds | Connichiwa.xcodeproj/..Nodelike/lib/_stream_writable.js:200-219 | While a stream is corked its sink gets nothing, but by the last `uncork` and `end` |
| WritableRuns.StepInv | Connichiwa.xcodeproj/..Nodelike/lib/_stream_writable.js:173-460 | Every public call, completion and phase of `afterWrite` keeps the invariant, in any interleaving |
| WritableRuns.ClearBufferCore | Connichiwa.xcodeproj/..Nodelike/lib/_stream_writable.js:338-387 | Working off the buffer, in one `_writev` or chunk by chunk, leaves a write in flight or an empty buffer |
| WritableStream.Writable.Write | Connichiwa.xcodeproj/..Nodelike/lib/_stream_writable.js:173-252 | Accepts a chunk as the state machine says and tells whether the mark is not yet reached |
| WritableStream.Writable.End | Connichiwa.xcodeproj/..Nodelike/lib/_stream_writable.js:396-420 | Writes the last chunk, uncorks fully, announces the end |
| WritableStream.Writable.Uncork | Connichiwa.xcodeproj/..Nodelike/lib/_stream_writable.js:206-219 | Works off the buffer when the last cork goes |
| WritableStream.Writable.Completed | Connichiwa.xcodeproj/..Nodelike/lib/_stream_writable.js:288-316 | The completion of a write |
| WritableStream.Writable.ClearBuffer | Connichiwa.xcodeproj/..Nodelike/lib/_stream_writable.js:338-387 | Works off the buffer |
| WritableStream.Writable.WriteOneByOne | Connichiwa.xcodeproj/..Nodelike/lib/_stream_writable.js:359-384 | The loop over the buffer stops at the first chunk the sink keeps and slices what it has passed |
| WritableStream.Writable.CallNext | Connichiwa.xcodeproj/..Nodelike/lib/_stream_writable.js:318-324 | One callback, after `pendingcb` has been lowered |
| PipelineTheorems.RequestOrder | Connichiwa.xcodeproj/..Nodelike/lib/_http_server.js:434-492 | In every run, whatever order handlers write and end in, the bytes on the socket are a prefix of the responses in request order (section 8.1.2.2 of RFC 2616) |
| PipelineTheorems.WireIs | Connichiwa.xcodeproj/..Nodelike/lib/_http_server.js:434-492 | Exactly how much of which response is on the socket: all of those that gave it back, all but the output of the one that has it, nothing of the others |
| PipelineTheorems.AssertionsHold | Connichiwa.xcodeproj/..Nodelike/lib/_http_server.js:148-163 | The assertions on assigning, detaching and on the first incoming request never fail, `end` never reads a null connection, and one response at most is attached to the socket |
| PipelineTheorems.NothingHeldBack | Connichiwa.xcodeproj/..Nodelike/lib/_http_server.js:466-491 | With no flush due, everything up to and including the response that has the socket is sent, and that one has not ended |
| PipelineTheorems.AllAnswered | Connichiwa.xcodeproj/..Nodelike/lib/_http_server.js:466-491 | Once all responses have ended, all of them are on the socket in full |
| PipelineTheorems.NothingAfterLast | Connichiwa.xcodeproj/..Nodelike/lib/_http_server.js:483-491 | After the last response, or once the server has closed its side, no step sends anything |
| PipelineClosing.LastCloses | Connichiwa.xcodeproj/..Nodelike/lib/_http_server.js:483-491 | In every run, a response marked as the last that has been served has closed the connection: it is the last one served, and the wire carries the responses up to it and nothing else; every served response whose header says so is marked, and no other while the client has not ended |
| PipelineClosing.ClosedAfterClient | Connichiwa.xcodeproj/..Nodelike/lib/_http_server.js:396-417 | Once the client has ended its side, all responses have ended and no flush is due, the server has ended its own side |
| PipelineClosing.StoppedByClient | Connichiwa.xcodeproj/..Nodelike/lib/_http_server.js:405-408 | Without half-open connections the end of the client stops everything at once, and no request is left to be answered |
| PipelineHistory.AskedIs | Connichiwa.xcodeproj/..Nodelike/lib/_http_outgoing.js:405-551 | In every run there is one response for each request, with its plan, and it has taken exactly what its handler asked for: until it has been served, and for good if nobody writes to a response after its end |
| PipelineHistory.DataArrives | Connichiwa.xcodeproj/..Nodelike/lib/_http_outgoing.js:425-551 | From the body of an ended response the client reads exactly the data its handler asked for before the end, chunked or not |
| PipelineChunks.ChunkedBody | Connichiwa.xcodeproj/..Nodelike/lib/_http_outgoing.js:425-458 | Decoding a chunked body (section 3.6.1 of RFC 2616) gives the data of its chunks, and its trailer follows |
| PipelineChunks.HexReadBack | Connichiwa.xcodeproj/..Nodelike/lib/_http_outgoing.js:432-449 | Reading the hexadecimal digits of a chunk size gives the number back |
| PipelineTheorems.WriteAfterEnd | Connichiwa.xcodeproj/..Nodelike/lib/_http_outgoing.js:405-460 | A write to an ended response changes what goes out if and only if the response still waits for the socket, may have a body, and the data is not empty |
| PipelineTheorems.LateWriteSent | Connichiwa.xcodeproj/..Nodelike/lib/_http_outgoing.js:405-460 | A run of two requests in which the second response is written to after its end, and what was written goes out |
| PipelineRuns.StepInv | Connichiwa.xcodeproj/..Nodelike/lib/_http_server.js:434-492 | Every request, header, write, end, flush and end of the client keeps the invariant |
| PipelineRuns.DetachServes | Connichiwa.xcodeproj/..Nodelike/lib/_http_server.js:466-481 | A response is detached only when it owns the socket, is the first incoming request and is on the wire in full |
| PipelineRuns.EmptyHasSocket | Connichiwa.xcodeproj/..Nodelike/lib/_http_outgoing.js:543-548 | A response with its header gone and no output has the socket |
| PipelineSafety.SendGrows | Connichiwa.xcodeproj/..Nodelike/lib/_http_outgoing.js:121-139 | A response takes its header and data once, on the wire behind what it had kept, or in its output |
| PipelineSafety.ChunkGrows | Connichiwa.xcodeproj/..Nodelike/lib/_http_outgoing.js:425-458 | A body chunk adds its encoding, chunked or not, in one piece or in four |
| PipelineServer.Connection.WriteRaw | Connichiwa.xcodeproj/..Nodelike/lib/_http_outgoing.js:141-181 | Sends what was kept and then the data if the response has the socket, keeps it otherwise |
| PipelineServer.Connection.Drain | Connichiwa.xcodeproj/..Nodelike/lib/_http_outgoing.js:158-168 | The loop that sends kept pieces appends exactly their concatenation |
| PipelineServer.Connection.End | Connichiwa.xcodeproj/..Nodelike/lib/_http_outgoing.js:486-551 | Sends the rest and the terminator, and hands the socket on if everything is out |
| PipelineServer.Connection.OnFinish | Connichiwa.xcodeproj/..Nodelike/lib/_http_server.js:466-491 | Detaches the response, and closes the connection if it was the last or else starts the next one; PipelineClosing.LastCloses says what that comes to |
| PipelineServer.Connection.OnIncoming | Connichiwa.xcodeproj/..Nodelike/lib/_http_server.js:434-463 | A new request queues its response or gives it the socket |
| PipelineServer.Connection.FlushDueNow | Connichiwa.xcodeproj/..Nodelike/lib/_http_outgoing.js:579-597 | The flush after an assignment sends what was kept and finishes a response that has ended |
| PipelineServer.Connection.OnEnd | Connichiwa.xcodeproj/..Nodelike/lib/_http_server.js:396-417 | The end of the client side, with and without half-open connections |
| CallbacksRuns.SpliceSplit | ConnichiwaResources/scripts/jquery-2.1.1.js:3125-3144 | Removing an entry while firing moves the cursor with the entries it has passed |
| CallbacksRuns.RemoveFromIs | ConnichiwaResources/scripts/jquery-2.1.1.js:3125-3144 | `remove` takes out every occurrence of the function and keeps the others in order |
| CallbacksRuns.AddInv | ConnichiwaResources/scripts/jquery-2.1.1.js:3094-3123 | Adding while firing extends the firing; adding after a firing with memory fires at once from the new entries |
| CallbacksTheorems.RunInv | ConnichiwaResources/scripts/jquery-2.1.1.js:3040-3202 | In every interleaving of add, remove, fire, lock, disable and returning callbacks, `firingLength` equals the length of the list and `firingIndex` splits it into called and uncalled |
| CallbacksTheorems.PassComplete | ConnichiwaResources/scripts/jquery-2.1.1.js:3065-3078 | When a firing ends, the surviving entries from its start were called exactly once each, in order |
| CallbacksTheorems.NextCall | ConnichiwaResources/scripts/jquery-2.1.1.js:3072-3077 | Until then the next call is of the first entry that has not been called |
| CallbacksTheorems.GoneForGood | ConnichiwaResources/scripts/jquery-2.1.1.js:3125-3144 | A registration that is off the list is never called again |
| CallbacksTheorems.EmptyThenAdd | ConnichiwaResources/scripts/jquery-2.1.1.js:3151-3155 | After `empty` during a firing, a callback added in it is called when the running one returns if and only if the cursor stood before the list |
| CallbacksTheorems.EmptyLosesCallback | ConnichiwaResources/scripts/jquery-2.1.1.js:3151-3155 | A run in which a callback empties its list and adds another one, which is then on the list but is not called |
| CallbacksFirings.FiredInOrder | ConnichiwaResources/scripts/jquery-2.1.1.js:3178-3189 | A repeatable list that is neither locked nor disabled makes exactly the firings asked for, with the arguments of the calls, in the order of the calls, also of those made during a firing; none waits once the list does not fire |
| CallbacksFirings.FireCalls | ConnichiwaResources/scripts/jquery-2.1.1.js:3065-3078 | A fire of an idle list calls its first function with the arguments of the fire |
| CallbacksFirings.QueuedBegins | ConnichiwaResources/scripts/jquery-2.1.1.js:3080-3086 | When the last callback of a firing returns, the fire that has waited longest begins at the first function |
| CallbacksFirings.AddFires | ConnichiwaResources/scripts/jquery-2.1.1.js:3117-3120 | An addition to an idle list that remembers calls what was added, and nothing that was there before, with the remembered arguments |
| CallbacksFirings.PushIs | ConnichiwaResources/scripts/jquery-2.1.1.js:3096-3111 | `add` appends the functions in order; a unique list takes none that it has |
| CallbacksFirings.UniqueHolds | ConnichiwaResources/scripts/jquery-2.1.1.js:3100-3104 | In every run a unique list holds no function twice |
| CallbacksFirings.LockStops | ConnichiwaResources/scripts/jquery-2.1.1.js:3156-3173 | In every run, once a list has been locked or disabled no fire has any effect and what waited is dropped; a disabled list calls nothing more |
| CallbacksFirings.FiresOnce | ConnichiwaResources/scripts/jquery-2.1.1.js:3080-3090 | A list that fires once takes the arguments of its first fire and no others, and keeps no function after a firing; without memory it fires once and is then disabled |
| CallbacksObject.CallbackList.Remove | ConnichiwaResources/scripts/jquery-2.1.1.js:3125-3144 | The loop of splices and cursor moves removes exactly the function |
| CallbacksObject.CallbackList.Add | ConnichiwaResources/scripts/jquery-2.1.1.js:3094-3123 | Pushes the functions and extends or starts a firing |
| CallbacksObject.CallbackList.FireWith | ConnichiwaResources/scripts/jquery-2.1.1.js:3178-3189 | Fires, queues for a repeatable list that is firing, or refuses; CallbacksFirings.FiredInOrder says what becomes of what was queued |
| CallbacksObject.CallbackList.Returned | ConnichiwaResources/scripts/jquery-2.1.1.js:3065-3090 | The loop goes on when a callback returns, and ends by clearing, disabling or firing what was queued |
| DeferredTheorems.SettlesOnce | ConnichiwaResources/scripts/jquery-2.1.1.js:3256-3280 | Under any re-entrant sequence of calls the state leaves pending at most once, and a settled state is final |
| DeferredTheorems.LosersSilent | ConnichiwaResources/scripts/jquery-2.1.1.js:3264-3271 | No callback of the losing side is ever called, and none before the deferred settles |
| DeferredTheorems.WinnersOnce | ConnichiwaResources/scripts/jquery-2.1.1.js:3256-3280 | On the winning side every registration, before, during or after settling, is called exactly once, in order of registration, with the settling arguments |
| DeferredTheorems.SettlePending | ConnichiwaResources/scripts/jquery-2.1.1.js:3264-3271 | Settling sets the state, disables the other side and locks progress before any user callback runs |
| DeferredProgress.NotifiedInOrder | ConnichiwaResources/scripts/jquery-2.1.1.js:3276-3280 | Every `notify` of a pending deferred fires the progress callbacks, in the order of the calls and with their arguments, also one made by a progress callback; a registration while they do not run fires with the latest ones |
| DeferredProgress.SettledSilent | ConnichiwaResources/scripts/jquery-2.1.1.js:3264-3271 | Once a deferred is settled `notify` does nothing, and one that waited is dropped |
| DeferredSafety.AddSettling | ConnichiwaResources/scripts/jquery-2.1.1.js:3094-3123 | A registration on a settling list waits for the firing, joins it, or is called at once with the remembered arguments |
| DeferredObject.DeferredCell.Settle | ConnichiwaResources/scripts/jquery-2.1.1.js:3264-3279 | `resolve` and `reject` on the object |
| DeferredObject.DeferredCell.Register | ConnichiwaResources/scripts/jquery-2.1.1.js:3260-3261 | `done` and `fail` on the object |
| SizzleAncestors.CombinatorIs | ConnichiwaResources/scripts/jquery-2.1.1.js:2066-2117 | What a combinator says without any cache: some node further on, among those it looks at, matches, or the nearest of those does; it looks at elements, and as a base one that walks to parents at every node |
| SizzleAncestors.NameOutside | ConnichiwaResources/scripts/jquery-2.1.1.js:2066-2069 | A combinator does not occur within itself, so it cannot read its own unfinished result |
| SizzleAncestors.Sizzle.RunCached | ConnichiwaResources/scripts/jquery-2.1.1.js:2095-2116 | The cached walk returns what the uncached existential says, and every result it leaves, shared and back-propagated, is right for its node, although nested combinators overwrite the same slots |
| SizzleAncestors.Sizzle.RunUncached | ConnichiwaResources/scripts/jquery-2.1.1.js:2086-2094 | The walk for XML nodes returns the same |
| SizzleAncestors.Sizzle.RunFirst | ConnichiwaResources/scripts/jquery-2.1.1.js:2071-2078 | The nearest-node combinators |
| SizzleAncestors.Sizzle.RunAll | ConnichiwaResources/scripts/jquery-2.1.1.js:2119-2131 | All matchers have to match, the last one tried first |
| SizzleAncestors.Sizzle.Run | ConnichiwaResources/scripts/jquery-2.1.1.js:2066-2131 | Any compiled matcher, with any results of this run in the cache, says what the uncached meaning says |
| SizzleAncestors.Sizzle.Select | ConnichiwaResources/scripts/jquery-2.1.1.js:2330-2348 | For every order of queries within a run the elements selected are those that match |
| SizzleNthChild.TestIsFormula | ConnichiwaResources/scripts/jquery-2.1.1.js:1728-1732 | The final test with the remainder of JavaScript holds if and only if the number is first * n + last for some n from 0 on, for all integers (section 6.6.5.2 of Selectors Level 3) |
| SizzleNthChild.OrdinalIs | ConnichiwaResources/scripts/jquery-2.1.1.js:1680-1726 | The number of a child is how many elements, or nodes of its name, there are up to it or from it on |
| SizzleNthChild.BothEnds | ConnichiwaResources/scripts/jquery-2.1.1.js:1680-1726 | Counting from the two ends adds up |
| SizzleNthChild.Parent.SeekFromCache | ConnichiwaResources/scripts/jquery-2.1.1.js:1682-1704 | From any right cached position the wrap-around loop ends with the number of the element among its siblings, and caches it |
| SizzleNthChild.Parent.SeekFromEnd | ConnichiwaResources/scripts/jquery-2.1.1.js:1710-1725 | Counting from either end, by element or by name, ends with the number, and what is cached on the way is right |
| SizzleNthChild.Parent.Nth | ConnichiwaResources/scripts/jquery-2.1.1.js:1648-1732 | The filter holds if and only if the number is first * n + last for some n from 0 on |
| PassThroughStream.PassThrough.ReadBytes | Connichiwa.xcodeproj/..Nodelike/lib/_stream_readable.js:256-369 | In paused mode `read(n)` gives the next n bytes if they are there; if not, all there are when the stream has ended, and null when too little is there after asking for more. A reader that is told null has been given every byte written to an uncorked stream if it asked for whatever there is, and all but fewer than it asked for if it asked for a number up to the largest mark; it is to be told of more, or of the end |
| PassThroughStream.PassThrough.Drained | Connichiwa.xcodeproj/..Nodelike/lib/_stream_transform.js:83-106 | Bytes delivered, buffered, with the transform and in the write buffer are the bytes written, in order; with nothing buffered or waiting all are delivered |
| PassThroughStream.PassThrough.EndsComplete | Connichiwa.xcodeproj/..Nodelike/lib/_stream_readable.js:881-899 | The end is emitted only after every byte written was delivered |
| PassThroughStream.PassThrough.ToldOfMore | Connichiwa.xcodeproj/..Nodelike/lib/_stream_readable.js:401-419 | In every state between steps, a reader that waits to be told has been told since or is going to be, once there is more than there was or the stream has ended: 'readable' is never missing |
| PassThroughStream.PassThrough.AllFlows | Connichiwa.xcodeproj/..Nodelike/lib/_stream_readable.js:738-746 | In flowing mode, once no tick that flows on is to come, every byte written to an uncorked stream has been delivered, and the end is on its way if the stream has ended |
| PassThroughStream.PassThrough.Finishes | Connichiwa.xcodeproj/..Nodelike/lib/_stream_transform.js:188-204 | Once the stream has been ended and no chunk waits and no completion is to come, its end has been passed on, and it has finished unless empty chunks are left in the write buffer |
| PassThroughStream.PassThrough.AfterTransform | Connichiwa.xcodeproj/..Nodelike/lib/_stream_transform.js:83-106 | A transformed chunk is pushed once, its write completes, and the next chunk waits only if the reader has enough |
| PassThroughStream.PassThrough.ReadMore | Connichiwa.xcodeproj/..Nodelike/lib/_stream_transform.js:174-185 | `_read` transforms the chunk that waits, once, or notes the wish |
| PassThroughStream.PassThrough.AddChunk | Connichiwa.xcodeproj/..Nodelike/lib/_stream_readable.js:132-177 | A chunk is delivered at once in flowing mode or buffered, in order, and the reader that waits is told of it; reading ahead is scheduled; a push after the end does not happen |
| PassThroughStream.PassThrough.OnReadable | Connichiwa.xcodeproj/..Nodelike/lib/_stream_readable.js:673-688 | The first 'readable' listener waits to be told of data, and starts the stream on the next tick or is told at once if data is there; nothing is lost |
| PassThroughStream.PassThrough.Read | Connichiwa.xcodeproj/..Nodelike/lib/_stream_readable.js:256-369 | Reading takes the bytes asked for from the front, asks for more when the buffer runs low, loses none, and ends the waiting of the reader or lets it be told |
| PassThroughStream.PassThrough.HowMuchToRead | Connichiwa.xcodeproj/..Nodelike/lib/_stream_readable.js:206-253 | In paused mode the number asked for if it is there, else all there is after the end and nothing before; a number beyond the mark raises the mark |
| PassThroughStream.PassThrough.Flow | Connichiwa.xcodeproj/..Nodelike/lib/_stream_readable.js:738-746 | The flowing loop terminates, keeps the order, and leaves nothing to flow without a tick to come |
| PassThroughStream.PassThrough.ReadMoreTick | Connichiwa.xcodeproj/..Nodelike/lib/_stream_readable.js:438-452 | The read-ahead loop terminates, keeps everything, and leaves no chunk waiting unless the read buffer has reached its mark |
| PassThroughStream.PassThrough.EmitReadableTick | Connichiwa.xcodeproj/..Nodelike/lib/_stream_readable.js:416-428 | 'readable' on its tick: whatever finite list of public calls the listeners make inside the emission, everything is kept |
| PassThroughStream.PassThrough.EmitToReaderTick | Connichiwa.xcodeproj/..Nodelike/lib/_stream_readable.js:416-428 | A listener that reads inside that emission until there is nothing has been given every byte written, if the stream is neither flowing nor corked |
| PassThroughStream.PassThrough.ClearBuffer | Connichiwa.xcodeproj/..Nodelike/lib/_stream_writable.js:338-387 | Working off the write buffer hands every chunk to the transform once, in order |
| PassThroughStream.PassThrough.Done | Connichiwa.xcodeproj/..Nodelike/lib/_stream_transform.js:188-204 | When the writable side finishes, nothing is left in its buffer and no transform is running: neither error is raised |
| PassThroughStream.PassThrough.End | Connichiwa.xcodeproj/..Nodelike/lib/_stream_writable.js:396-460 | Ending accepts the last chunk and keeps everything |
| PassThroughStream.PassThrough.DeliveredBound | Connichiwa.xcodeproj/..Nodelike/lib/_stream_transform.js:83-106 | No more bytes are delivered than were written |
| PassThroughBuffer.FromList | Connichiwa.xcodeproj/..Nodelike/lib/_stream_readable.js:817-879 | The first n bytes of a list of buffers and exactly the rest, in every case |
| PassThroughBuffer.TakeAcross | Connichiwa.xcodeproj/..Nodelike/lib/_stream_readable.js:851-874 | The copy loop across buffers takes exactly n bytes |
| Base64Spec.DecodeEncode | Connichiwa.xcodeproj/..Nodelike/lib/cjs-enc-base64.js:40-114 | Decoding the encoding restores every byte, for every length (section 4 of RFC 4648) |
| Base64Codec.Stringify | Connichiwa.xcodeproj/..Nodelike/lib/cjs-enc-base64.js:40-72 | The loops produce the encoding of the significant bytes and pad it to a multiple of four |
| Base64Codec.Parse | Connichiwa.xcodeproj/..Nodelike/lib/cjs-enc-base64.js:87-114 | For text of the alphabet the loop makes clamped words whose bytes are the decoding of it up to the padding; for any text it says how many bytes |
| Base64Codec.PutBytes | Connichiwa.xcodeproj/..Nodelike/lib/cjs-enc-base64.js:104-108 | Putting twelve bits in where eight are due changes one byte only: the bits that spill into the byte before are there already |
| Base64Codec.StepIs | Connichiwa.xcodeproj/..Nodelike/lib/cjs-enc-base64.js:104-108 | What two neighbouring characters put in is their byte, and what they spill is the bottom of the byte before |
| Base64Codec.IndexOfFirst | Connichiwa.xcodeproj/..Nodelike/lib/cjs-enc-base64.js:105-106 | `indexOf` finds the place of every character of the alphabet |
| Base64Codec.RoundTrip | Connichiwa.xcodeproj/..Nodelike/lib/cjs-enc-base64.js:40-114 | Parsing what was stringified restores the words and their number of bytes, for every number of bytes |
| DebuggerProtocol.SplitInvariant | Connichiwa.xcodeproj/..Nodelike/lib/_debugger.js:85-146 | From any state, feeding a text in two pieces gives the same responses and leftover as feeding it whole, or neither comes to an end, if every frame cut off on the way ends inside its text |
| DebuggerProtocol.NoneNegativeForward | Connichiwa.xcodeproj/..Nodelike/lib/_debugger.js:85-146 | If no frame cut off has a length below zero, the recursion comes to an end and every frame ends inside its text |
| DebuggerProtocol.FrameSplit | Connichiwa.xcodeproj/..Nodelike/lib/buffer.js:389-420 | Cutting off a frame and then appending text gives the same as appending first, for every text appended, if and only if the frame ends inside its text |
| DebuggerProtocol.SplitMatters | Connichiwa.xcodeproj/..Nodelike/lib/_debugger.js:85-146 | A frame of length -24 gives one body and one leftover when it is fed whole, and others when its header comes first |
| DebuggerProtocol.RestShorter | Connichiwa.xcodeproj/..Nodelike/lib/_debugger.js:119-140 | The text handed to `_newRes` is shorter if and only if the frame ends behind the first character, counted from the start or from the end of the text |
| DebuggerProtocol.PumpEnds | Connichiwa.xcodeproj/..Nodelike/lib/_debugger.js:85-146 | The recursion of `execute` and `_newRes` comes to an end if and only if every text handed on is shorter, and then the state is the one that cutting off the frames one by one gives |
| DebuggerProtocol.RunEnds | Connichiwa.xcodeproj/..Nodelike/lib/_debugger.js:85-146 | The same for the next piece of text, whatever pieces a new parser has been fed before |
| DebuggerProtocol.Endless | Connichiwa.xcodeproj/..Nodelike/lib/_debugger.js:85-146 | A header with the length -23 is handed on whole for ever |
| DebuggerProtocol.PiecesInvariant | Connichiwa.xcodeproj/..Nodelike/lib/_debugger.js:85-146 | The same for any number of pieces, under the same condition |
| DebuggerMessages.LineRead | Connichiwa.xcodeproj/..Nodelike/lib/_debugger.js:106-109 | A header line is split at its first colon that is followed by a space; the value begins after the spaces and goes up to the next such colon |
| DebuggerMessages.HeadersRead | Connichiwa.xcodeproj/..Nodelike/lib/_debugger.js:103-109 | A header of any number of lines is read line by line: every key gets the value of its last line |
| DebuggerMessages.HeaderEnd | Connichiwa.xcodeproj/..Nodelike/lib/_debugger.js:99-103 | The header ends at the empty line |
| DebuggerMessages.NumberRead | Connichiwa.xcodeproj/..Nodelike/lib/_debugger.js:111 | A length is read from its digits, with or without a sign, whatever blanks are around it |
| DebuggerMessages.MessagesDecode | Connichiwa.xcodeproj/..Nodelike/lib/_debugger.js:85-146 | A run of messages, each with any number of header lines one of which announces the length of its body, gives exactly their headers and bodies, in order, with no text left over |
| DebuggerMessages.SerializedGood | Connichiwa.xcodeproj/..Nodelike/lib/_debugger.js:149-155 | What `serialize` writes is such a message |
| DebuggerMessages.PiecesDecode | Connichiwa.xcodeproj/..Nodelike/lib/_debugger.js:85-146 | The same, in whatever pieces the messages arrive |
| DebuggerProtocol.HeaderRead | Connichiwa.xcodeproj/..Nodelike/lib/_debugger.js:103-110 | The header of a frame is read back |
| DebuggerParser.Protocol.Execute | Connichiwa.xcodeproj/..Nodelike/lib/_debugger.js:85-146 | Takes in a piece of text if the nested calls of `_newRes` it needs are no more than there is room for; it ends with all complete frames cut off, and says so, if and only if they are |
| LinkedList.Remove | Connichiwa.xcodeproj/..Nodelike/lib/_linklist.js:47-59 | Taking an item out leaves the others a well-formed ring in the same order, and the item without links |
| LinkedList.RemoveFrom | Connichiwa.xcodeproj/..Nodelike/lib/_linklist.js:47-59 | Out of whatever list holds the item; all other lists are unchanged |
| LinkedList.Append | Connichiwa.xcodeproj/..Nodelike/lib/_linklist.js:63-70 | The item comes out of whatever list holds it and goes behind the list; all lists stay well-formed rings |
| LinkedList.AppendQueues | Connichiwa.xcodeproj/..Nodelike/lib/_linklist.js:63-70 | In terms of queues: the item goes to the end of the list's queue and no other item changes its place |
| LinkedList.InitList | Connichiwa.xcodeproj/..Nodelike/lib/_linklist.js:22-25 | A node in no list becomes an empty list of its own; all lists stay as they are |
| LinkedList.Shift | Connichiwa.xcodeproj/..Nodelike/lib/_linklist.js:38-42 | Gives and takes out the item at the old end of the list; all other lists are unchanged |
| LinkedListRuns.QueuesInOrder | Connichiwa.xcodeproj/..Nodelike/lib/_linklist.js:22-76 | In every run of `init`, `append`, `remove` and non-empty `shift` on any number of lists, each list holds its items in the order of their last append |
| LinkedListRuns.ShiftsInOrder | Connichiwa.xcodeproj/..Nodelike/lib/_linklist.js:22-76 | In every run the items a list gives back come in the order of their last append before, and all of those before everything still in the list |
| LinkedListRuns.Do | Connichiwa.xcodeproj/..Nodelike/lib/_linklist.js:22-76 | A call on the linked objects does what the step on rings does, and `shift` gives the first item of the queue |
| LinkedListRuns.DoAll | Connichiwa.xcodeproj/..Nodelike/lib/_linklist.js:22-76 | A whole run on nodes without links leads to well-formed lists that are the rings of the run |
| LinkedList.ShiftQueue | Connichiwa.xcodeproj/..Nodelike/lib/_linklist.js:38-42 | In terms of queues: the first one goes |
| LinkedList.ShiftEmpty | Connichiwa.xcodeproj/..Nodelike/lib/_linklist.js:38-42 | `shift` on an empty list destroys it: it loses its own links |
| LinkedList.Peek | Connichiwa.xcodeproj/..Nodelike/lib/_linklist.js:30-34 | The oldest item, or null exactly if there is none |
| LinkedList.IsEmpty | Connichiwa.xcodeproj/..Nodelike/lib/_linklist.js:73-75 | Whether there is no item |

## Left out

- Handlebars lexer, grammar, whitespace control, partials, block parameters, source maps, aliases, and the `compat`, `strict`, `assumeObjects` and `knownHelpersOnly` options.
- `stringParams` and `trackIds`: compiling under them is modelled, the contexts, types and ids that running the result passes to helpers are not.
- Unescaped output that is not a string, where `+` would add numbers: the reference meaning says nothing about it.
- HandlebarsTemplate.TemplateCorrect: data frames are plain objects, so that following `_parent` runs no getter; helpers use the programs of their block only by calling them, names are readable in the sense of HandlebarsNames.NameReadBack, and every block has a program or an inverse, as the grammar guarantees; `fuel` bounds the nesting of programs and any value from the nesting depth on will do.
- HandlebarsOptions.TemplateCompiles: emitting code is modelled, building functions from it is not; a name that is not read back may keep a function from being built.
- HandlebarsJavaScriptCompiler.JavaScriptCompiler.FlushInline: with two inline entries that are not literals the temporaries would be numbered twice; it is only called with one.
- AES modes, padding, and keys of other sizes than 128, 192 and 256 bits.
- Writable streams: errors of the sink, string encodings, writes made by the sink while it is being called, and 'prefinish' or 'finish' listeners that write.
- HTTP: the parser, timeouts, upgrades, `writeContinue`, a second `writeHead`, corking, write callbacks, and the socket after it is destroyed. Header text and chunk sizes are values the handler fixes.
- PipelineServer.Connection.Drain: responses are values in a sequence rather than objects that refer to the socket; that two names could mean one response is not modelled.
- jQuery: `stopOnFalse`, `has`, `fired` and the other questions, callbacks that throw, and `then`, `when` and `always`, which are made of the registrations modelled.
- CallbacksTheorems.RunInv: runs do not contain `empty`, whose effect during a firing is CallbacksTheorems.EmptyThenAdd.
- Sizzle: selector parsing, the order of matchers, positional filters, nested runs of `:has` and `:not`, and documents that change within a run. Elements are numbers, the document is a pair of walks that come to an end.
- The `first`, `last` and `only` forms of the child filters, whose loops look for one sibling.
- PassThrough streams: object mode, string decoders, `pipe`, `unshift`, and listeners that call the stream inside an emission in the middle of another call; inside 'readable' on its tick they may.
- PassThroughStream.PassThrough.ReadBytes: how many bytes a read gives is stated in paused mode; in flowing mode only that no byte is lost or overtaken and that all are delivered. Listeners that read or write inside an emission in the middle of a call are outside the contract.
- Base64Codec.Parse: what it makes of characters outside the alphabet, beyond the number of bytes.
- Debugger protocol: text stands for its UTF-8 bytes, bodies are not parsed as JSON, and header values that are fractions, have an exponent, are hexadecimal, infinite or beyond the exact integers count as no number; `-Infinity`, with which the recursion does not end, is one of them.
- `_http_agent.js`, `_http_client.js`, the debugger's client and interface, and the jQuery parts about the DOM, CSS, animation and AJAX are not part of this model.
