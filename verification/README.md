# Virtual sensor: a verified model

The virtual sensor runs on a node of a cluster, reads `/proc`, and sends the
processes that satisfy a configured filter to Kafka topics. This project models
four connected parts of it in Dafny and proves what they promise.

* **The filter** (`Tokenizer`, `Selection`, `Parser`, `Evaluation`, `ExprTrees`,
  `Filters`). A selection text in prefix notation is split with `std::quoted`,
  scanned from right to left with two stacks, and built into a heap tree that is
  evaluated with early exit and searched for a pid. `Parser` and `Evaluation`
  are the meaning over values; `ExprTrees` and `Filters` are the heap objects,
  whose methods are proved against them, with `new` and `delete` made explicit.
* **The process cache and the query** (`Snapshots`, `Processes`, `Attributes`,
  `Repository`). Attributes are read on first use and kept in fields; `getData`
  either looks up one pid or scans `/proc`. `Attributes` says for each name of a
  configuration which part of `/proc` is printed for it, and what each operator
  says about what is printed.
* **The message** (`Rendering`, `Json`, `Readback`, `Sending`). A record is
  printed, the headers are spliced in over its closing brace, and a reader
  written from RFC 8259 (sections 2, 3, 4, 6 and 7) reads the result back.
* **The workers** (`Lifecycle`, `Reconfigure`). Detached worker threads poll a
  stop flag and delete themselves while the manager thread replaces one
  configuration by the next. `Lifecycle` is the interleaving of atomic steps;
  `Reconfigure` is the manager's code, run against an arbitrary schedule of
  worker steps.

`Text` has the C++ number parsers, `Meminfo` the reader of `/proc/meminfo`.

C++ exceptions are the value `Throws` of `Outcome`. Reading the top of an empty
stack and adding uninitialised variables are undefined in C++; they are excluded
by preconditions (`ParseText(text) != Undefined`, `Snapshot.Defined`).

What the proofs show to be false of the code in general, with the exact
condition under which it holds:

* The pid lookup replaces the scan although `findPid` ignores the operator.
  When the leaf it finds is reached by the evaluation and excludes all other
  processes, as an equation always does, lookup and scan agree for a literal that
  is a non-negative int exactly when the process asked for makes both throw or
  no other one makes the scan throw, and for any other literal exactly when the
  scan throws as well (`LookupIsScan`, `IndexAgreesWithScan`). A leaf alone
  agrees on all process tables exactly when the literal is a non-negative int
  (`EquationOnPid`) and, for an order, comparing -1 with it succeeds and is false
  (`OrderOnPid`), or, for a pattern, it is a regular expression that no name
  matches (`PatternOnPid`).
* The evaluation may not reach that leaf when a count was cut to 16 bits: with
  65536 conjuncts lookup and scan differ (`TruncatedConjunction`). All counts in
  the trees of a text agree with the children exactly when the counts its
  connectives read fit (`ScanCountsAgree`), and then the leaf is reached
  (`ParsedLeafIsReached`).
* The parser accepts texts that are not the prefix form of what it builds; an
  accepted text is that prefix form exactly when each operator is directly
  followed by its own operands, the count of a connective being a canonical
  numeral below 2^16 (`ParseInvertsIffBlocks`; `ParserAcceptsMore` is an input
  that fails). It loses memory exactly when trees stay on its stack
  (`BuildThenDestroy`).
* A message reads back as the attributes and headers it was made of exactly when
  the record is not empty or there are no headers, names and paths have neither
  quote nor backslash, command lines no backslash, copied words are numbers or
  `null`, the line of `ps` starts and ends with a blank or newline, keys are clean
  and headers printable (`MessageReadsBack`); the usage `12.5` at the start of its
  line is sent as 2.5 (`UsageLosesDigit`). An unknown attribute, or a user or
  group that is missing from the status file, makes the message no JSON at all,
  wherever it stands behind attributes that read back (`MissingAttributeSpoils`).
* A configuration is started as a whole exactly when every producer can be
  created; otherwise a proper part may be running and no reply is sent
  (`Handle`, `AllOrNothing`). A new worker is registered, so that the next
  configuration stops it, exactly when no earlier job has its broker and topic
  (`RegisteredIffFirst`); otherwise it is never stopped
  (`DuplicateIsUnregistered`, `UnregisteredRunsForever`), and after any history
  of configurations exactly those workers run besides the last ones
  (`SurvivorsAreDuplicates`).
* Each filter has at most one worker and is deleted when that worker is freed, and
  never twice (`EveryStepIsSafe`, `PropsFollowWorkers`). The filters that get no
  worker are those made before a later topic throws, and those from the first
  job on whose broker gets no producer (`Handle`, `LostProps`).

## Model

| member | source | states |
|---|---|---|
| Text.NumeralRoundTrip | src/schemas/process.cpp:18-25 | printing the pid that a directory name denotes gives the name back exactly when it has no superfluous leading zero |
| Text.StoIOfDigits | src/repository/repository.cpp:32 | reading a printed number back yields it exactly when it fits a 32-bit int and throws otherwise |
| Text.StoIOfText | src/repository/repository.cpp:32 | white space, one sign and digits in front of any other text are read as that number, which throws without digits and outside -2147483648 to 2147483647 |
| Text.StoULOfText | src/schemas/process.cpp:190-220 | likewise up to 2^64, a negative number being taken modulo 2^64 |
| Tokenizer.Tokenize | src/repository/filter.cpp:162-168 | the extraction loop stacks exactly the tokens of the text under the rules of std::quoted |
| Tokenizer.TokensOfSpelledText | src/repository/filter.cpp:162-168 | any token list, including empty tokens, blanks, quotes and backslashes, is read back from its text, with any white space around the tokens, when those that need quotes have them and white space follows each unquoted one but the last |
| Tokenizer.TokensOfJoinedText | src/repository/filter.cpp:162-168 | in particular from plain tokens joined by single blanks |
| Tokenizer.UnterminatedIsLost | src/repository/filter.cpp:162-168 | what follows an opening quote that is never closed is lost, and the tokens in front of it are kept |
| Tokenizer.PlainIsExact | src/repository/filter.cpp:162-168 | a token can go without quotes exactly when it is non-empty, does not start with a quote and has none of the six white space characters |
| Parser.ScanFlatten | src/repository/filter.cpp:170-205 | from any two stacks, the lexicals of a tree leave that tree on top, children in order, and the rest of both stacks as it was |
| Parser.ParseInvertsFlatten | src/repository/filter.cpp:133-141 | a tree is recovered from its printed lexicals whatever follows them, if the rest scans; what the rest built is left over |
| Parser.FlattenIsPrefixFree | src/repository/filter.cpp:170-208 | no tree's lexicals are a proper prefix of another tree's |
| Parser.RelationIsParsed | src/repository/filter.cpp:191-201 | each of the six relations between two words, written as text, is parsed to that leaf |
| Parser.ConnectiveIsParsed | src/repository/filter.cpp:176-190 | `&&` and `\|\|` with the number of relations behind it, fewer than 2^16, is parsed to that node over these leaves in order |
| Parser.OtherWordsAreOperands | src/repository/filter.cpp:202-205 | anything but the eight operators is an operand |
| Parser.CountsAreChecked | src/repository/filter.cpp:176-190 | a connective aborts when its count is no int, has no children when it is not positive, and reads an empty stack when it asks for more than there is |
| Parser.ParseTextRecoversTree | src/repository/filter.cpp:157-209 | from text to tree: tokeniser and parser together recover the tree from any such text of its lexicals |
| Parser.ScanInvertsIffBlocks | src/repository/filter.cpp:170-205 | a text that scans is the prefix form of the trees left on the stack exactly when every operator is directly followed by its own operands, a count being a canonical numeral below 2^16 |
| Parser.ParseInvertsIffBlocks | src/repository/filter.cpp:157-209 | the same for the constructor: an accepted text can be printed back from the selection and what is left over, exactly under that condition |
| Parser.ParserAcceptsMore | src/repository/filter.cpp:170-208 | an accepted text that fails it: two leaves whose operands are not their own |
| Parser.StackConservation | src/repository/filter.cpp:170-205 | the operand stack and both depths from the tokens alone: operands minus two per relation and one per connective, trees as operators minus the counts that the connectives read; no node is lost |
| Parser.UnderflowCondition | src/repository/filter.cpp:176-199 | a step reads an empty stack exactly when these depths, computed from the tokens, fall short of what its token needs |
| Parser.NoLeftoverIffAllOperatorsUsed | src/repository/filter.cpp:207-208 | the stack is empty after the last pop exactly when the selection contains every operator of the text |
| Evaluation.EvalIsHolds | src/repository/filter.cpp:111-132 | without exceptions, early-exit evaluation is "for all" for && and "exists" for \|\|, at any depth and arity |
| Evaluation.ConnectivesMean | src/repository/filter.cpp:111-132 | over children that do not throw, `&&` is true when all are and `\|\|` when one is |
| Evaluation.EvalUntilIsQuantifier | src/repository/filter.cpp:113-130 | the loop over the children decides the quantifier over them |
| Evaluation.FirstChildDecides | src/repository/filter.cpp:111-132 | with exceptions, a connective gives the result of the first declared child that throws or decides; if none does, the neutral answer, or an exception if a declared child is missing |
| Evaluation.MissingChildren | src/repository/filter.cpp:115-119 | a node that declares more children than it has throws unless an earlier child decides |
| Evaluation.SelectedImpliesLeaf | src/repository/filter.cpp:95-110 | a tree that is true makes the leaf findPid finds true, whatever its operator, if the nodes on the way to it declare enough children |
| Evaluation.SelectedImpliesPid | src/repository/filter.cpp:95-110 | so if that leaf is an equation, a selected process has exactly that pid |
| Evaluation.ParsedCount | src/repository/filter.cpp:90-94 | the node built for a count agrees with its children exactly when the 16-bit count is the number taken |
| Evaluation.ScanCountsAgree | src/repository/filter.cpp:178-189 | the trees of a text have agreeing counts exactly when the counts its connectives read fit in 16 bits; other numerals are free |
| Evaluation.BlocksFit | src/repository/filter.cpp:178-189 | a text made of blocks has counts that fit |
| Evaluation.ParsedLeafIsReached | src/repository/filter.cpp:95-110 | if the counts of a text fit, the leaf found in its selection is reached |
| ExprTrees.ExprNode.PushBack | src/repository/filter.cpp:182-187 | a child is added at the end and its nodes become part of the tree |
| ExprTrees.ExprNode.Validate | src/repository/filter.cpp:29-132 | on the heap tree, and with the process's cache, evaluation gives the three-valued meaning of the tree |
| ExprTrees.ExprNode.ValidateLeaf | src/repository/filter.cpp:29-84 | a leaf's answer on the cached attributes is its meaning on the snapshot |
| ExprTrees.ExprNode.FindPid | src/repository/filter.cpp:23-28 | the heap search returns the literal of the leaf that the lookup is about |
| ExprTrees.ExprNode.Destroy | src/repository/filter.cpp:143-149 | deleting a tree frees each of its nodes once and nothing else |
| ExprTrees.TreeSize | src/repository/filter.cpp:143-149 | a valid heap tree has exactly as many nodes as the tree it stands for: nothing shared, nothing missing |
| Filters.Build | src/repository/filter.cpp:157-209 | the constructor builds the parser's tree out of fresh nodes; the allocated nodes are those of the tree and of the trees left on the stack, and a bad count throws and loses all |
| Filters.ReduceLogical | src/repository/filter.cpp:176-190 | a logical node takes its children off the stack in order, keeping the stack a forest of disjoint trees |
| Filters.BuildThenDestroy | src/repository/filter.cpp:524-527 | building and deleting a filter gives all memory back exactly when no tree was left on the stack |
| Snapshots.RoundedKB | src/schemas/process.cpp:10-16 | the kilobyte figure k is the one with -512 < 1024 k - bytes <= 512 |
| Processes.SumTraffic | src/schemas/process.cpp:259-276 | the totals are the sums per direction modulo 2^64 |
| Processes.ScanIo | src/schemas/process.cpp:348-367 | the last read_bytes up to the first write_bytes, and the first write_bytes |
| Processes.Process.ReadStatFile | src/schemas/process.cpp:190-220 | parent pid from word 3 and processor time from words 14 and 15, or the exception of stoul |
| Processes.Process.ReadStatusFile | src/schemas/process.cpp:293-320 | user from line 8 and group from line 9; a missing line leaves its field alone |
| Processes.Process.Get | src/schemas/process.cpp:40-240 | whatever was cached before, every attribute reads as its snapshot value and the cache stays consistent |
| Attributes.NameIsPrinted | src/repository/filter.cpp:225-230 | "name" prints the first line of comm, or null |
| Attributes.PathIsPrinted | src/schemas/process.cpp:70-90 | "executePath" prints the target of exe up to 4999 characters |
| Attributes.CommandIsPrinted | src/schemas/process.cpp:92-107 | "command" prints the line of cmdline |
| Attributes.UserAndGroupArePrinted | src/schemas/process.cpp:294-320 | "uid" and "gid" print the second words of the ninth and tenth line of status |
| Attributes.MemoryIsPrinted | src/schemas/process.cpp:322-346 | "virtualMemory" prints the first word of statm and "physicalMemory" the second of smaps_rollup |
| Attributes.UsageIsPrinted | src/schemas/process.cpp:139-168 | "cpuUsage" prints the second line of ps without its blank and newline, or null |
| Attributes.ParentIsPrinted | src/schemas/process.cpp:190-220 | "parentPid" prints the fourth word of stat, or throws if a time there is no number |
| Attributes.TimeIsPrinted | src/schemas/process.cpp:190-220 | "cpuTime" prints a decimal whose digits denote the sum of both times |
| Attributes.CountersArePrinted | src/schemas/process.cpp:253-276 | "pid" prints the pid, "networkIn" and "networkOut" the rounded totals of RX and TX |
| Attributes.TrafficAdds | src/schemas/process.cpp:253-276 | the total of two groups of packet lines is the sum of their totals |
| Attributes.BytesArePrinted | src/schemas/process.cpp:348-367 | "readKBs" and "writeKBs" print the rounded figures of the usual io file |
| Attributes.OthersPrintNothing | src/repository/filter.cpp:225-266 | any other name prints nothing |
| Attributes.EquationMeans | src/repository/filter.cpp:31-42 | "==" compares the literal with what is printed for the pid, parent, user or group and is false for any other operand |
| Attributes.PatternMeans | src/repository/filter.cpp:43-55 | "%=" searches the command, the path or, for any other operand, the name, and throws for a bad expression |
| Attributes.OrderMeans | src/repository/filter.cpp:56-81 | "<", "<=", ">" and ">=" compare the number printed for one of the eight operands, or -1 for any other, with the literal, on finite numbers, infinities and NaN |
| Attributes.OrderFails | src/repository/filter.cpp:56-81 | an order is false when null is printed, and throws when the value, its number or the literal does |
| Repository.GetAllPids | include/repository/repository.h:26-50 | the listing is the pids of the directories named by digits, in order |
| Repository.EntryInListing | include/repository/repository.h:26-50 | a directory named by digits stands in the listing behind those in front of it, and nothing else does |
| Repository.IsProcessDirectory | src/repository/repository.cpp:3-15 | accepted exactly when every character is a digit |
| Repository.ListedPidsAreDistinct | include/repository/repository.h:37-47 | distinct directories with canonical names have distinct pids |
| Repository.DirectoriesListPids | include/repository/repository.h:26-50 | such directories form the listing that the lookup theorem needs |
| Repository.GetData | src/repository/repository.cpp:23-50 | the answer is that of the query on the snapshots, for lookup and scan, exceptions included; caches do not show |
| Repository.ScanIsFilterThenProject | src/repository/repository.cpp:39-48 | a scan returns one record per matching process in listing order, each the projection of that process |
| Repository.MatchingIsInOrder | src/repository/repository.cpp:39-48 | the matching processes of a listing are those of its parts, one after the other |
| Repository.MatchingOne | src/repository/repository.cpp:39-48 | a process matches if it exists and the selection, if any, is true of it |
| Repository.ScanThrowsIff | src/repository/repository.cpp:39-48 | the scan throws exactly when the visit of some listed process does |
| Repository.LookupIsScan | src/repository/repository.cpp:29-49 | if the leaf found is reached and not true of the other listed processes: for a literal that is an int and not negative, lookup equals scan exactly when the visit of that pid throws or that of no other listed one does; for any other literal, exactly when some visit throws |
| Repository.IndexAgreesWithScan | src/repository/repository.cpp:29-49 | for an equation on the pid nothing more is needed, and if no listed process makes the selection throw, the condition is that the literal is an int and not negative |
| Repository.FalseOrderSelectsNothing | src/repository/filter.cpp:56-81 | if the leaf is an order and comparing -1 with its literal is false, whatever stands around the leaf, the scan is empty, or throws exactly when some listed process makes the selection throw, and likewise the lookup for the process or the literal it asks for |
| Repository.EquationOnPid | src/repository/filter.cpp:23-28 | for a single equation, lookup equals scan on all process tables exactly when the literal is an int that is not negative |
| Repository.OrderOnPid | src/repository/filter.cpp:23-28 | for a single order with any literal, lookup equals scan on all process tables exactly when the literal is an int that is not negative and comparing -1 with it succeeds and is false |
| Repository.PatternOnPid | src/repository/filter.cpp:23-28 | for a single pattern, exactly when the literal is such an int and a regular expression that no name matches |
| Repository.TruncatedConjunction | src/repository/filter.cpp:85-94 | the text of 65536 conjuncts `== pid 5` parses to a node with count 0; on a table with processes 5 and 6 the lookup returns one record and the scan two |
| Rendering.IterateProc | src/repository/filter.cpp:210-279 | the printed record is the projection of the snapshot, whatever the process has cached |
| Rendering.OnlyControlsAreBlanked | src/repository/filter.cpp:274-278 | of the printed record only the characters below 32 and 127 are changed, each into a blank |
| Rendering.Splice | src/clients/kafka_client.cpp:72-81 | overwriting the stream from its last character on yields the record without its closing brace, then the headers and the brace |
| Rendering.PayloadReads | src/clients/kafka_client.cpp:72-81 | if each field and header reads by itself, the payload is a JSON object of exactly these members in order, except for headers on an empty record, which is no JSON |
| Rendering.CommandSurvives | src/schemas/process.cpp:92-107 | the escaped and blanked command line decodes to itself with blanks for control characters exactly when it has no backslash |
| Rendering.CommandAttributeSurvives | src/schemas/process.cpp:100-102 | the same for the attribute, an empty line being printed as null |
| Rendering.UnescapedSurvives | src/repository/filter.cpp:225-244 | a name or path decodes to itself, control characters blanked, exactly when it has neither quote nor backslash |
| Readback.ValueReadsBack | src/repository/filter.cpp:219-272 | the printed value reads as a string for names, paths and commands and as the number or null in it for the rest, exactly under the condition for its kind; numbers the sensor prints always do, and the usage exactly when the characters dropped from the line of ps are blanks |
| Readback.UsageLosesDigit | src/schemas/process.cpp:161-164 | a line `12.5` of ps is sent as 2.5 |
| Readback.AttributeReadsBack | src/repository/filter.cpp:217-272 | a printed attribute reads as a member named by its alias or name, with that value, exactly when moreover the key has neither quote nor backslash |
| Readback.HeaderReadsBack | src/clients/kafka_client.cpp:74-77 | a header reads as its name and value exactly when neither has a control character, quote or backslash |
| Readback.MessageReadsBack | src/clients/kafka_client.cpp:72-81 | a message is a JSON object of exactly these members in order, if and only if each attribute and header reads back and the headers do not stand alone |
| Readback.MembersAreNamed | src/repository/filter.cpp:217-272 | then the i-th member is named by the alias of the i-th attribute or, without one, by its name, and holds what is printed for it; the headers follow as given |
| Readback.MissingAttributeSpoils | src/repository/filter.cpp:219-272 | behind attributes that read back, an unknown attribute, or a user or group without its status line, is printed without a value and makes the whole message no JSON |
| Sending.SendRound | src/clients/kafka_client.cpp:64-97 | a round produces one payload per record in order, and nothing if fetching throws |
| Sending.MessagesReadBack | src/clients/kafka_client.cpp:64-91 | for lookup and scan alike, one message per process visited and selected, and the i-th reads as the members of the i-th process and the headers exactly under the condition above |
| Lifecycle.StepKeepsInv | src/clients/kafka_client.cpp:22-129 | every step of every thread keeps the invariant: references counted, registered workers alive until stopped, first registration kept, each WorkerProp owned once and deleted with its worker |
| Lifecycle.EveryStepIsSafe | src/clients/kafka_client.cpp:22-129 | in every interleaving no step uses a freed worker, a deleted client, a destroyed producer or a deleted WorkerProp, none is deleted twice, and no worker is stopped twice |
| Lifecycle.ReferencesAreCounted | src/clients/kafka_client.cpp:18-51 | in every reachable state the producer's reference count is one for a client not deleted plus one per worker not freed, and the workers in the map of a serving client run |
| Lifecycle.StoppedWorkerDrains | src/clients/kafka_client.cpp:58-108 | once stopped, a worker starts no further round and is freed within a bound on its own steps, in every continuation |
| Lifecycle.SentInOrder | src/clients/kafka_client.cpp:58-102 | in every run, what a worker has produced followed by what is left of its round is what it was before followed by the messages of its rounds in order, each the answer to its own query when it looked |
| Lifecycle.SentIsGathered | src/clients/kafka_client.cpp:58-102 | from the start, a worker has produced a prefix of its rounds' messages, and all of them between rounds |
| Lifecycle.WorkersMakeProgress | src/clients/kafka_client.cpp:58-108 | in every reachable state each worker that is not freed can take a step; from its flag it can go through a round and then has sent exactly the messages of that round, none if fetching throws; once stopped it can free itself |
| Lifecycle.PropsFollowWorkers | src/clients/kafka_client.cpp:110-129 | in every reachable state a WorkerProp, with its filter, exists exactly until the one worker that has it is freed |
| Lifecycle.FirstRegistrationWins | src/clients/kafka_client.cpp:31-36 | in every reachable state outside a clearing, the registered worker of a broker and topic is the first added since the last clearing |
| Lifecycle.UnregisteredRunsForever | src/clients/kafka_client.cpp:34 | a worker that lost the registration is never stopped or freed in any continuation |
| Lifecycle.ClearingStopsTheRegistered | src/worker_repository.cpp:11-18 | when a clearing ends, a worker is stopped exactly if it was registered |
| Reconfigure.Manager.Do | src/clients/kafka_client.cpp:22-129 | each atomic step the manager or the schedule takes leads from one reachable state to the next and is safe |
| Reconfigure.Manager.ClearAll | src/worker_repository.cpp:11-18 | under any schedule, every registered worker is stopped, no other, and the map of producers is empty |
| Reconfigure.Manager.AddWorker | src/worker_repository.cpp:20-32 | one more running worker with the client of its broker, which is created if new; nothing if that fails |
| Reconfigure.Manager.Handle | src/handlers/config_handler.cpp:10-73 | under any schedule: which workers are stopped and started, which producers remain, how many WorkerProps are made and who gets them, which single reply is sent, and when an exception leaves the handler instead |
| Reconfigure.Manager.ReadTopics | src/handlers/config_handler.cpp:22-60 | the jobs of all topics, or none as soon as one topic throws; a WorkerProp is made for each topic before that |
| Reconfigure.AllOrNothing | src/handlers/config_handler.cpp:63-65 | in the state the handler leaves, all jobs have their workers, and all their brokers are served, exactly when every broker gets a producer, and no job has a worker exactly when there is no job or the first broker fails |
| Reconfigure.RegisteredIffFirst | src/clients/kafka_client.cpp:34 | after a configuration a new worker is registered exactly when no earlier job has its broker and topic |
| Reconfigure.DuplicateIsUnregistered | src/clients/kafka_client.cpp:31-36 | a run of seven steps that leaves the second of two equal jobs unregistered |
| Reconfigure.DistinctJobsAreRegistered | src/handlers/config_handler.cpp:63-65 | after a configuration with distinct broker and topic pairs every new worker is registered |
| Reconfigure.RunningAreTheJobs | src/handlers/config_handler.cpp:10-73 | after a configuration, the registered workers that are not stopped are exactly the first new ones of each broker and topic, and those not stopped are the new ones and the old unregistered ones |
| Reconfigure.SurvivorsAreDuplicates | src/handlers/config_handler.cpp:10-73 | after any history of configurations a worker runs exactly if it is of the last one or an earlier job of its own configuration had its broker and topic |
| Reconfigure.OnlyTheLastRuns | src/handlers/config_handler.cpp:10-73 | if no configuration repeats a broker and topic, exactly the workers of the last one run |
| Reconfigure.WorkerServesItsTopic | src/handlers/config_handler.cpp:24-48 | each round of the worker of the i-th topic consists of the messages for that topic of what the tree selects that the topic's text spells, with its projection and interval and the metadata of the responder as headers; in every continuation these rounds are sent in order |
| Reconfigure.WorkerSendsForItsTopic | src/clients/kafka_client.cpp:58-102 | and from its flag that worker can go through such a round, after which all its messages have been sent |
| Reconfigure.SpelledTopicIsAccepted | src/handlers/config_handler.cpp:24-44 | a topic is accepted whatever its other fields say, if its text spells a tree |
| Reconfigure.LostProps | src/handlers/config_handler.cpp:40-65 | the WorkerProps a configuration makes and gives to no worker are those beyond its started jobs, and every other one exists exactly until its worker is freed |
| Meminfo.Memory.constructor | src/schemas/memory.cpp:3-34 | the fields hold what the lines up to the eighth recognised one store |
| Meminfo.EarlyExitIsHarmless | src/schemas/memory.cpp:8-32 | if no label occurs twice, stopping at eight recognised lines loses nothing |
| Meminfo.FieldIsItsLine | src/schemas/memory.cpp:14-29 | then each field holds the value of its own line, in whatever order the lines come |
| Meminfo.FieldsByWord | src/schemas/memory.cpp:3-34 | in an object read from a file without repeated words, the field of each of the eight labels holds the word behind it |

## Left out

- Repository.GetData: only the process datatype, the only one the configuration handler creates; network interfaces, memory, processor, disk and I/O records have the same shape as process records.
- Repository.LookupIsScan: assumes that the process asked for is listed if it exists, so ids of threads, which have a status file but no entry in /proc, are not covered.
- Snapshots.Thousandths: prints the exact quotient; the double division of the source agrees while the tick count is far below 2^53.
- Snapshots.RoundedKB: byte totals are exact; their conversion to double is exact only below 2^53.
- Processes.Process.ReadStatFile: a stat line with fewer than 16 words is excluded, because the source then adds uninitialised variables.
- Filters.Build: texts that make the source read the top of an empty stack are excluded.
- Reconfigure.Manager.Handle: a WorkerProp is a number there and its filter the tree its topic parses to; the heap nodes of one filter are tracked in Filters.
- Lifecycle.StepKeepsInv: a round looks at one consistent state of the processes, and topics are objects of librdkafka that are left out.
- Evaluation.SelectedImpliesLeaf: that the leaf is reached is sufficient; a leaf that is not may still agree with the scan when the other children select nothing else.
- KakfaClient, Worker and WorkerRepository are records of one shared state instead of objects, because the steps of all threads interleave on them; the manager that acts on that state is a class.
- Lifecycle.EveryStepIsSafe: the atomic flag is sequentially consistent; weak memory ordering is not modelled.
- ExprTrees.ExprNode.Validate: the two loops of the source, for && and for \|\|, are one method with the deciding answer as parameter.
- std::regex and std::stod are parameters; doubles are ordered reals with the two infinities and not-a-number.
- Snapshots hold the lines of /proc files already split into words, and the outputs of ps and ifconfig; the stream calls that read them, and files that change between two reads, are not modelled.
- Hash maps are visited in an arbitrary order: headers come as a sequence, and a clearing may take clients and workers in any order.
- Characters beyond ASCII are ordinary characters; whether bytes form valid UTF-8 is not checked.
- The WebSocket client, the JSON parser, librdkafka, logging, sleeping times and the remaining record types are not part of this model.
