# ESP32 MQTT broker: a Dafny model of its core

The firmware turns an ESP32 into the hub of an escape-room style installation.
It runs an embedded MQTT 3.1.1 broker. A device manager holds the configured
devices, their MQTT topic bindings, their scenarios and their templates, and
reads and writes that configuration as JSON. Template runtimes react to MQTT
messages and automation flags, and an automation engine runs scenario steps.
Web UI helpers drive a laser hold game, a pictures (RFID) game, robot voice
presets and an audio player. A browser-side configuration wizard, a device
editor and a remote editor edit the same configuration as JavaScript objects.

The model has one Dafny module per source file (or per group of closely tied
files):

- `Common`, `Json`, `JsValue`, `JsPath`: shared vocabulary. This covers C
  character classes, the JSON tree as cJSON presents it, and the slice of
  JavaScript value semantics the editors rely on.
- `DmTypes`, `DmValidate`, `DmParse`, `DmExport`, `DmExportTemplates`,
  `DmExportConfig`, `DmProfiles`, `DmTemplates`: the device-manager
  configuration, its JSON codec with read-back (round-trip) lemmas, profiles
  and the template state machines.
- `TemplateRegistry`, `TemplateFactory`, `TemplateApplier`, `TemplateRuntime`,
  `RuntimeUid`, `RuntimeSequence`, `RuntimeCondition`: the template table and
  builders, and the per-device runtimes. Each runtime is a class whose methods
  are proved against pure step functions.
- `Automation`: the flag table, the triggers and the control flow of a
  running scenario.
- `MqttCore`: the prefix ACL, the topic maps, filter matching, the
  remaining-length and string codecs, the retained-message table and the
  subscription rule.
- `Laser`, `Pictures`, `Robot`, `UrlDecode`, `AudioPlayer`, `Hostname`,
  `ConfigStore`, `ErrorMonitor`: the web UI games and helpers, and the small
  firmware services.
- `WizardTemplates`, `WizardSteps`, `WizardConfig`, `WizardEdits`,
  `EditorOps`, `DevicesEditor`: the browser editors. A handler is a function
  from the edited object to its new value, plus whether the handler marked the
  model dirty. A thrown `TypeError` is a `Threw` completion. These handlers are pure
  functions over `Value`; only `DevicesEditor.Editor`, the editor page's
  state, is a class whose methods write the results back.

Clocks, random numbers, flash, SD card, sockets and RTOS tasks are parameters
of the operations or are left out; see below.

## Model

| member | source | states |
|---|---|---|
| ConfigStore.ValidateString | components/config_store/config_store.c:42-49 | accepted exactly when the string is non-empty and shorter than the buffer, leaving room for the NUL |
| ConfigStore.ValidateConfig | components/config_store/config_store.c:51-73 | accepted exactly when the host name is empty or fits, the broker id and NTP server are non-empty and fit, the port is 1..65535 and the keep-alive 1..600 s |
| ConfigStore.Defaults | components/config_store/config_store.c:28-40 | the defaults pass validation; open access point, port 1883, keep-alive 30 s |
| ConfigStore.Store.constructor | components/config_store/config_store.c:15 | the boot state holds the defaults and the given flash contents |
| ConfigStore.Store.Init | components/config_store/config_store.c:114-135 | a flash copy that loads and validates becomes the configuration; otherwise the defaults are used and written back, and a failed write is reported |
| ConfigStore.Store.Save | components/config_store/config_store.c:75-89 | the flash holds the configuration after a successful write, and is unchanged after a failed one |
| ConfigStore.Store.Set | components/config_store/config_store.c:142-160 | an invalid configuration is refused with INVALID_ARG and nothing changes; a valid one replaces the configuration and is saved |
| ConfigStore.Store.ResetDefaults | components/config_store/config_store.c:162-170 | the configuration becomes the defaults, which are saved |
| ErrorMonitor.PatternFor | components/error_monitor/error_monitor.c:15-26 | blinking red exactly when the card is missing or faulty; solid red exactly when the card is fine and Wi-Fi is down; off exactly when both are fine |
| ErrorMonitor.Monitor.constructor | components/error_monitor/error_monitor.c:10-13 | power-on state: not initialised, every flag false, LED never set |
| ErrorMonitor.Monitor.Init | components/error_monitor/error_monitor.c:28-45 | a failed mutex creation gives NO_MEM and changes nothing; a failed LED driver init returns its error; otherwise every flag is cleared and the LED blinks red |
| ErrorMonitor.Monitor.SetWifiConnected | components/error_monitor/error_monitor.c:47-56 | after init, the Wi-Fi flag is set and the LED shows the pattern for the flags; before init, nothing changes |
| ErrorMonitor.Monitor.SetSdState | components/error_monitor/error_monitor.c:58-70 | after init, the card flag is set, mounting clears a reported fault, and the LED shows the pattern; before init, nothing changes |
| ErrorMonitor.Monitor.ReportSdFault | components/error_monitor/error_monitor.c:72-81 | after init, the fault is recorded and the LED blinks red; before init, nothing changes |
| DmValidate.ConditionToString | components/device_manager/device_manager_validate.c:22-32 | "any" for the any mode, "all" otherwise |
| DmValidate.ConditionFromString | components/device_manager/device_manager_validate.c:34-48 | the all mode exactly for "all" and the any mode exactly for "any", in any case; None for a NULL or unknown name |
| DmValidate.ConditionRoundTrip | components/device_manager/device_manager_validate.c:22-48 | reading a printed mode, spelled in any case, gives the mode back |
| DmValidate.ActionTypeToString | components/device_manager/device_manager_validate.c:10-58 | every action type has its entry in the name table |
| DmValidate.ActionIndex | components/device_manager/device_manager_validate.c:63-69 | the table scan finds an entry whose name equals the given name ignoring case, or reports that no later entry does |
| DmValidate.ActionTypeFromString | components/device_manager/device_manager_validate.c:60-72 | a type is found exactly when some table name equals the given name ignoring case, and it is that entry's type; None for NULL |
| DmValidate.ActionNamesDistinct | components/device_manager/device_manager_validate.c:10-20 | no two action names are equal, even ignoring case |
| DmValidate.ActionIndexIsFirst | components/device_manager/device_manager_validate.c:63-69 | the scan returns the first matching entry |
| DmValidate.ActionRoundTrip | components/device_manager/device_manager_validate.c:50-72 | reading a printed action type, spelled in any case, gives the type back |
| Hostname.Push | components/network/network.c:110-120 | one character either leaves the output as it was or appends exactly one character to it |
| Hostname.StripDashes | components/network/network.c:122-124 | the result is a prefix of the input with no trailing dash, and only dashes were removed |
| Hostname.StripDashesStep | components/network/network.c:122-124 | backing up over one trailing dash leaves the stripped result unchanged |
| Hostname.StripDashesDone | components/network/network.c:122 | a string without a trailing dash is left as it is |
| Hostname.ScanKeepsShape | components/network/network.c:109-121 | the copy loop keeps its output in shape (lower-case letters, digits, no leading or doubled dash) and within the buffer |
| Hostname.SanitizeWellFormed | components/network/network.c:101-135 | every result is a non-empty, well-formed host name that fits the buffer with its NUL and is never "brocker" |
| Hostname.FallbackWellFormed | components/network/network.c:103-127 | the fallback "broker" is a well-formed name of six characters |
| Hostname.StripKeepsShape | components/network/network.c:109-124 | stripping the trailing dashes of what the loop kept leaves a well-formed name or nothing |
| Hostname.ScanWellFormed | components/network/network.c:109-121 | copying a well-formed name rebuilds the same name |
| Hostname.SanitizeIdempotent | components/network/network.c:101-135 | sanitising a sanitised name gives the same name |
| Hostname.SanitizeInto | components/network/network.c:101-135 | the buffer holds the sanitised name followed by a NUL, within its length |
| Hostname.TrimDashes | components/network/network.c:122-124 | the loop leaves the first cells with their trailing dashes stripped |
| Hostname.WriteFallback | components/network/network.c:125-127 | the buffer holds "broker" and its NUL |
| Hostname.ScanInto | components/network/network.c:107-121 | the buffer holds what the copy loop keeps of the input, at most out_len - 1 characters |
| TemplateRegistry.GetAll | components/device_manager/template_registry.c:5-56 | the table has seven entries of distinct registered kinds, and the count returned is its length |
| TemplateRegistry.IndexById | components/device_manager/template_registry.c:62-67 | the scan returns the first entry whose id equals the given id ignoring case, or reports that none does |
| TemplateRegistry.Find | components/device_manager/template_registry.c:58-69 | an entry is found exactly when the id is non-NULL, non-empty and equals some table id ignoring case; the entry found has that id |
| TemplateRegistry.IndexByKind | components/device_manager/template_registry.c:73-77 | the scan returns an entry of the given kind, or reports that no later entry has it |
| TemplateRegistry.TypeToString | components/device_manager/template_registry.c:71-79 | a registered kind prints as its table id; any other kind prints as "unknown" |
| TemplateRegistry.TypeFromString | components/device_manager/template_registry.c:81-93 | a kind is read only from a non-NULL name, and only registered kinds are read |
| TemplateRegistry.TypeFromStringFound | components/device_manager/template_registry.c:81-93 | a name is read as a kind only when it equals that kind's table id ignoring case |
| TemplateRegistry.IdsDistinct | components/device_manager/template_registry.c:5-48 | no two table ids are equal ignoring case |
| TemplateRegistry.FromToString | components/device_manager/template_registry.c:71-93 | every registered kind is read back from its own name, spelled in any case |
| TemplateRegistry.IndexIsFirstMatch | components/device_manager/template_registry.c:62-67 | the scan returns the first match |
| TemplateRegistry.FromStringIgnoresCase | components/device_manager/template_registry.c:58-93 | names equal up to case give the same kind and the same entry |
| TemplateRegistry.SameMatchesSameIndex | components/device_manager/template_registry.c:62-67 | two names that match the same entries are found at the same index |
| TemplateRegistry.SensorMonitorUnregistered | components/device_manager/template_registry.c:5-79 | the sensor-monitor kind prints as "unknown", and "unknown" names no template |
| UrlDecode.HexByte | components/web_ui/web_ui_utils.c:19-21 | "%hl" gives the byte 16*h + l, which fits in a byte |
| UrlDecode.DecodeShorter | components/web_ui/web_ui_utils.c:18-28 | decoding never makes the input longer |
| UrlDecode.DecodePlain | components/web_ui/web_ui_utils.c:25-27 | input with no '%' and no '+' decodes to itself |
| UrlDecode.MalformedEscapeCopied | components/web_ui/web_ui_utils.c:19-27 | a '%' not followed by two hex digits is copied literally, and decoding resumes at the next character |
| UrlDecode.Encode | components/web_ui/web_ui_utils.c:19-22 | percent-encoding writes three characters for each character |
| UrlDecode.DecodeEncode | components/web_ui/web_ui_utils.c:18-28 | every byte string survives percent-encoding followed by decoding |
| UrlDecode.DecodeStep | components/web_ui/web_ui_utils.c:19-27 | at each position, an escape consumes three characters and gives one byte; '+' gives a blank; anything else is copied |
| UrlDecode.UrlDecodeInto | components/web_ui/web_ui_utils.c:12-30 | with no room nothing is written; otherwise the buffer holds the decoding cut to out_len - 1 characters, then a NUL, and the cells after it are untouched |
| Common.Prefix | components/web_ui/web_ui_pictures.c:251-252 | the first n characters of a string, all of it when shorter: what a copy into a buffer with room for n characters keeps |
| UrlDecode.CString | components/web_ui/web_ui_utils.c:29 | the characters before the first NUL: a prefix of the buffer without a NUL, followed by a NUL when it is shorter |
| UrlDecode.CStringOfClean | components/web_ui/web_ui_utils.c:29 | text without a NUL is read whole |
| UrlDecode.QueryValue | components/web_ui/web_ui_laser.c:363-373 | a query parameter read into a buffer of `size` bytes and decoded into another of the same size is shorter than the buffer and than the encoded value, and holds no NUL |
| UrlDecode.QueryValueOfBuffer | components/web_ui/web_ui_laser.c:363-373 | the value read is what `web_ui_url_decode` stores for the encoded value cut to size - 1 characters, read up to its NUL; the second buffer never cuts |
| UrlDecode.QueryValueFits | components/web_ui/web_ui_laser.c:363-373 | a value that fits its buffer is read as its decoding up to a decoded NUL; one that fits with no '%', '+' or NUL is read as it is |
| UrlDecode.EncodeAppend | components/web_ui/web_ui_utils.c:19-22 | encoding distributes over concatenation |
| UrlDecode.DecodeEncodedHead | components/web_ui/web_ui_utils.c:18-28 | decoding reads an encoded head back and then goes on with what follows |
| UrlDecode.CutBeforeDecode | components/web_ui/web_ui_laser.c:363-373 | the value is cut before it is decoded: forty '/' sent as "%2f" in a 96-byte buffer are read as 31 '/' followed by "%2", where decoding first would keep all forty |
| DmTemplates.UidClear | components/device_manager/templates/dm_templates.c:63-69 | a cleared validator has no slots and empty topics |
| DmTemplates.SignalClear | components/device_manager/templates/dm_templates.c:168-175 | a cleared hold template is all zero and empty except its 1000 ms heartbeat timeout |
| DmTemplates.ConditionClear | components/device_manager/templates/dm_templates.c:264-271 | a cleared condition has mode ALL, no rules and no scenarios |
| DmTemplates.IntervalClear | components/device_manager/templates/dm_templates.c:273-280 | a cleared interval task runs every 1000 ms with no scenario |
| DmTemplates.SequenceClear | components/device_manager/templates/dm_templates.c:282-289 | a cleared sequence has no steps and no timeout, and resets on error |
| DmTemplates.UidMatches | components/device_manager/templates/dm_templates.c:8-19 | a value matches exactly when it is non-empty and equals, ignoring case, a non-empty one among the slot's first UID_MAX_VALUES values |
| DmTemplates.MatchFrom | components/device_manager/templates/dm_templates.c:13-17 | the scan from index i finds a match exactly when one exists at or after i |
| DmTemplates.FindSlotIndex | components/device_manager/templates/dm_templates.c:21-33 | the index found is the first of at most UID_MAX_SLOTS slots whose non-empty source equals the source ignoring case; none is found when no slot matches |
| DmTemplates.SlotFrom | components/device_manager/templates/dm_templates.c:26-31 | the scan from index i finds the first matching slot at or after i, or none when none matches |
| DmTemplates.SetSlot | components/device_manager/templates/dm_templates.c:71-86 | refused exactly for an index past the table or an empty source; otherwise that slot is replaced by a fresh one, the count becomes max(count, index + 1), the skipped slots are empty and nothing else changes |
| DmTemplates.AddValue | components/device_manager/templates/dm_templates.c:88-103 | refused exactly for an index past the table, an empty value, a slot without a source or a full slot; otherwise the value is appended to that slot and nothing else changes |
| DmTemplates.AddedValueMatches | components/device_manager/templates/dm_templates.c:8-103 | a value added to a slot is matched by it afterwards, in any spelling of its case |
| DmTemplates.SetBit | components/device_manager/templates/dm_templates.c:42-61 | bit i is set and no other bit changes |
| DmTemplates.CountSetBit | components/device_manager/templates/dm_templates.c:134-146 | setting a clear bit adds one to the count of set bits below n exactly when the bit is below n |
| DmTemplates.MarkSeenConsistent | components/device_manager/templates/dm_templates.c:134-138 | marking a slot seen keeps the seen counter equal to the number of seen bits |
| DmTemplates.MarkOkConsistent | components/device_manager/templates/dm_templates.c:142-147 | marking a seen slot accepted keeps the accepted counter equal to the number of accepted bits |
| DmTemplates.IsComplete | components/device_manager/templates/dm_templates.c:160-166 | complete exactly when there are slots, no invalid value was seen, and at least as many values were accepted as there are slots |
| DmTemplates.UnknownSourceIgnored | components/device_manager/templates/dm_templates.c:128-131 | a value from a source that no slot names changes nothing and gives NONE |
| DmTemplates.HandleValueConsistent | components/device_manager/templates/dm_templates.c:134-148 | handling a value keeps both counters equal to their bitmaps; each rises by at most one; a seen invalid value is never forgotten |
| DmTemplates.HandleValueVerdict | components/device_manager/templates/dm_templates.c:149-157 | once every slot has reported, the verdict is INVALID exactly when an invalid value was seen or too few were accepted, and SUCCESS otherwise; SUCCESS leaves the state complete; before that there is no verdict |
| DmTemplates.MismatchMarksInvalid | components/device_manager/templates/dm_templates.c:139-156 | a value that does not match its slot fails the round: the state is not complete and the event is neither ACCEPTED nor SUCCESS |
| DmTemplates.UidState.constructor | components/device_manager/include/dm_templates.h:63-67 | a new state is the cleared state |
| DmTemplates.UidState.Reset | components/device_manager/templates/dm_templates.c:105-111 | the state becomes the cleared state |
| DmTemplates.UidState.HandleValue | components/device_manager/templates/dm_templates.c:113-158 | the new state and the event are those of the validator step function |
| DmTemplates.UidState.MarkSlotSeen | components/device_manager/templates/dm_templates.c:134-138 | the slot's seen bit is set and the seen counter counts it |
| DmTemplates.UidState.MarkSlotOk | components/device_manager/templates/dm_templates.c:145-146 | the slot's accepted bit is set and the accepted counter counts it |
| DmTemplates.EffectiveTimeout | components/device_manager/templates/dm_templates.c:199 | the timeout in force is positive, and is the template's own when that is non-zero |
| DmTemplates.AccumulatorWraps | components/device_manager/templates/dm_templates.c:216-217 | as written, one in-time heartbeat makes the 32-bit total fall from 0xFFFFFFF0 to 0x10 |
| DmTemplates.TickSteps | components/device_manager/templates/dm_templates.c:185-228 | the first tick starts the hold; a gap over the timeout stops it and keeps the total; otherwise the gap is added (saturating), the total never falls, and reaching the required hold completes |
| DmTemplates.CompletedIsFinal | components/device_manager/templates/dm_templates.c:196-224 | a completed hold is finished and inactive, and every later tick returns NONE |
| DmTemplates.SaturationStillCompletes | components/device_manager/templates/dm_templates.c:216-224 | an active hold whose total plus an in-time gap reaches the required time completes, even near the 32-bit limit |
| DmTemplates.Timeout | components/device_manager/templates/dm_templates.c:230-246 | STOP exactly for an active, unfinished hold with a required time, which then becomes inactive; otherwise nothing changes and the event is NONE; the total is reported unchanged |
| DmTemplates.SignalState.constructor | components/device_manager/include/dm_templates.h:110-116 | a new state is the cleared state |
| DmTemplates.SignalState.Reset | components/device_manager/templates/dm_templates.c:177-183 | the state becomes the cleared state |
| DmTemplates.SignalState.HandleTick | components/device_manager/templates/dm_templates.c:185-228 | the new state and the event are those of the (saturating) tick function |
| DmTemplates.SignalState.HandleTimeout | components/device_manager/templates/dm_templates.c:230-246 | the new state and the event are those of the timeout function |
| Json.NumberToU32 | components/device_manager/device_manager_parse.c:14-24 | a missing, non-number or negative item gives the default; values over UINT32_MAX saturate; otherwise the integer part |
| Json.NumberToU16 | components/device_manager/device_manager_parse.c:27-37 | the same with UINT16_MAX |
| Json.NumberRoundTrip | components/device_manager/device_manager_parse.c:14-37 | an integer in range, written as a number, is read back unchanged |
| Json.BoolOr | components/device_manager/device_manager_parse.c:40-49 | the item's value when it is a JSON bool, the default otherwise |
| Json.StringOrEmpty | components/device_manager/device_manager_parse.c:661 | the item's string when it is a string, the empty string otherwise |
| Json.Collect | components/device_manager/device_manager_parse.c:64-70 | the items taken are at most the cap, at most the item count, and each is what the reader accepted from some item |
| Json.CollectAll | components/device_manager/device_manager_parse.c:64-70 | when no item is rejected and all fit the cap, every item is taken, in order |
| Json.CollectLoop | components/device_manager/device_manager_parse.c:189-200 | the loop with its index and counter takes the same items as the specification |
| Json.Emit | components/device_manager/device_manager_export.c:202-205 | the written items are at most the cap and at most the item count |
| Json.EmitKept | components/device_manager/device_manager_export.c:202-205 | every written item is the image of a kept item among the first cap |
| Json.EmitAll | components/device_manager/device_manager_export.c:202-205 | when every item is kept and all fit, every item is written, in order |
| Json.Traverse | components/device_manager/device_manager_export.c:488 | a loop that does not give up writes one item per element, up to the cap |
| Json.TraverseFails | components/device_manager/device_manager_export.c:488 | the loop gives up exactly when an element it reaches cannot be written |
| Json.TraverseAll | components/device_manager/device_manager_export.c:488 | when every element can be written and all fit, the items are the elements' images, in order |
| Json.EmitCollect | components/device_manager/device_manager_export.c:202-205 | a written list that fits the cap is read back as the same list when the reader inverts the writer on each item |
| Json.GetFields | components/device_manager/device_manager_export.c:152-161 | in an object written key by key with distinct keys, looking up a key finds its value, or nothing when that member was left out |
| DmParse.RequirementFromJson | components/device_manager/device_manager_parse.c:531-537 | a requirement is read exactly when `flag` is a string (an empty one is kept); its state defaults to true |
| DmParse.ModeOrAll | components/device_manager/device_manager_parse.c:517-521 | the mode is ANY exactly when `mode` is a string naming ANY; ALL otherwise |
| DmParse.StepFromJson | components/device_manager/device_manager_parse.c:477-567 | a step is refused exactly for a missing or unknown type, or a wait or loop step whose member is not an object; an accepted step has the named type, the delay read, and fits its caps |
| DmParse.NonEmptyString | components/device_manager/device_manager_parse.c:69 | present exactly for a non-empty string item, which it returns |
| DmParse.ArrayItems | components/device_manager/device_manager_parse.c:183-201 | at most the cap of items is taken, and each was accepted by the item reader |
| DmParse.ValueFromJson | components/device_manager/device_manager_parse.c:81-83 | a UID value taken is never empty |
| DmParse.Values | components/device_manager/device_manager_parse.c:80-87 | the non-empty string items, none of them empty and no more than there are items |
| DmParse.ValuesPrefix | components/device_manager/device_manager_parse.c:80-87 | a prefix of the array holds no more values than the whole array |
| DmParse.SlotFromJson | components/device_manager/device_manager_parse.c:68-88 | a slot is skipped exactly when `source_id` is not a non-empty string; a slot taken has that source and the label as title, and is well formed |
| DmParse.SlotsFromBounds | components/device_manager/device_manager_parse.c:64-91 | the slots taken fit the table and each is well formed |
| DmParse.SlotValuesLoop | components/device_manager/device_manager_parse.c:77-88 | the values of one slot, added one by one, are its non-empty string items, and the whole template fails when they exceed UID_MAX_VALUES |
| DmParse.UidSlotsLoop | components/device_manager/device_manager_parse.c:62-91 | the nested loops take the same slots as the specification |
| DmParse.UidFromJson | components/device_manager/device_manager_parse.c:52-133 | every validator read is valid: it has slots, within the caps, each well formed |
| DmParse.SignalFromJson | components/device_manager/device_manager_parse.c:136-174 | every hold template read has a signal topic, a heartbeat topic and a positive hold time |
| DmParse.MqttRuleFromJson | components/device_manager/device_manager_parse.c:193-215 | a rule is taken exactly from an object with a non-empty topic and scenario; `payload_required` defaults to whether the payload is non-empty |
| DmParse.MqttFromJson | components/device_manager/device_manager_parse.c:177-220 | every MQTT trigger read is valid: one to MQTT_MAX_RULES rules |
| DmParse.FlagRuleFromJson | components/device_manager/device_manager_parse.c:223-261 | a rule is taken exactly from an object with a non-empty flag and scenario; its state defaults to true |
| DmParse.FlagFromJson | components/device_manager/device_manager_parse.c:223-261 | every flag trigger read is valid: one to FLAG_MAX_RULES rules |
| DmParse.ConditionRuleFromJson | components/device_manager/device_manager_parse.c:264-307 | a rule is taken exactly from an object with a non-empty flag; its state defaults to true |
| DmParse.ConditionFromJson | components/device_manager/device_manager_parse.c:264-307 | every condition read is valid: at least one rule, within the cap, and a true scenario |
| DmParse.IntervalFromJson | components/device_manager/device_manager_parse.c:310-322 | every interval task read has a positive interval and a scenario |
| DmParse.SequenceStepFromJson | components/device_manager/device_manager_parse.c:341-356 | a step is taken exactly from an object with a non-empty topic; `payload_required` defaults to false |
| DmParse.SequenceFromJson | components/device_manager/device_manager_parse.c:325-408 | every sequence read is valid: one to SEQUENCE_MAX_STEPS steps, each with a topic |
| DmParse.TemplateFromJson | components/device_manager/device_manager_parse.c:411-474 | every template read is valid for its kind |
| DmParse.ValidTemplateRegisters | components/device_manager/template_runtime.c:394-415 | a valid template other than the sequence lock passes the runtime's registration guard; the sequence lock is refused as not supported |
| DmParse.TopicFromJson | components/device_manager/device_manager_parse.c:699-712 | a binding is read exactly from an object |
| DmParse.StepNodeFromJson | components/device_manager/device_manager_parse.c:735-748 | an element taken as a step fits its caps |
| DmParse.ScenarioFromJson | components/device_manager/device_manager_parse.c:720-753 | a scenario is read exactly from an object, and fits its caps |
| DmParse.DeviceFromJson | components/device_manager/device_manager_parse.c:652-769 | a device is read exactly from an object, fits its caps, and takes its id and name from the object |
| DmParse.ProfileStep | components/device_manager/device_manager_parse.c:606-636 | one profile element changes only the profile table, and adds at most one profile |
| DmParse.ProfilesFrom | components/device_manager/device_manager_parse.c:603-637 | the profile loop changes only the profile table and never grows it beyond MAX_PROFILES |
| DmParse.ProfileStepDistinct | components/device_manager/device_manager_parse.c:617-622 | a profile is appended only when no existing id matches, so the ids stay distinct and existing ids are kept |
| DmParse.ProfilesFromDistinct | components/device_manager/device_manager_parse.c:603-637 | the profile loop keeps the ids distinct |
| DmParse.FindByIdSameIds | components/device_manager/profiles/dm_profiles.c:157-169 | profile lookup depends on the ids only |
| DmParse.FindFromSameIds | components/device_manager/profiles/dm_profiles.c:162-167 | the scan from index i depends on the ids only |
| DmParse.Scalars | components/device_manager/device_manager_parse.c:569-601 | after the defaults and scalars there are no profiles, no active profile, no devices, the given capacity, and a tab limit of at most MAX_TABS |
| DmParse.WithProfilesFacts | components/device_manager/device_manager_parse.c:603-642 | after the profile phase there are one to MAX_PROFILES profiles with distinct ids, the active id names one of them, and no device has been read |
| DmParse.SyncKeepsProfiles | components/device_manager/device_manager_parse.c:770-771 | syncing the active profile after the device loop keeps the facts of the profile phase and changes only the profiles' counts |
| DmParse.DevicesFit | components/device_manager/device_manager_parse.c:650-769 | every device read is within its caps, and there are at most `capacity` of them when a capacity is set |
| DmParse.PopulateBounds | components/device_manager/device_manager_parse.c:590-773 | every populated configuration has a tab limit of at most MAX_TABS, one to MAX_PROFILES profiles with distinct ids and an active one found, at most `capacity` devices when a capacity is set, and only devices within their caps |
| DmParse.DevicesMissing | components/device_manager/device_manager_parse.c:645-649 | without a `devices` array there are no devices and the active profile's count is not synced |
| DmParse.DevicesRead | components/device_manager/device_manager_parse.c:650-772 | with a `devices` array the devices are its objects in order, up to the capacity, and the active profile records how many were read |
| DmParse.ProfileLoop | components/device_manager/device_manager_parse.c:603-637 | the profile loop computes the profile specification |
| DmParse.PopulateConfigFromJson | components/device_manager/device_manager_parse.c:590-773 | the whole walk, as the C code runs it, computes the populate specification |
| DmProfiles.FindById | components/device_manager/profiles/dm_profiles.c:157-169 | the profile found is the first of at most MAX_PROFILES whose non-empty id equals the id ignoring case; none for an empty id or no match |
| DmProfiles.FindFrom | components/device_manager/profiles/dm_profiles.c:162-167 | the scan from index i finds the first match at or after i, or none |
| DmProfiles.EnsureActiveSpec | components/device_manager/profiles/dm_profiles.c:171-194 | afterwards there is an active profile: the one the active id names, or the first, whose id becomes active; an empty table gets the default profile; existing profiles are kept |
| DmProfiles.EnsureActiveNamesProfile | components/device_manager/profiles/dm_profiles.c:171-194 | when every profile has an id, the active id names the profile returned, and a second call changes nothing |
| DmProfiles.SyncToActiveSpec | components/device_manager/profiles/dm_profiles.c:223-234 | the active profile's count becomes the number of devices, capped by a non-zero capacity; no other profile changes |
| DmProfiles.CheckId | components/device_manager/profiles/dm_profiles.c:236-252 | the loop accepts exactly the ids of the validity rule: non-empty, shorter than the buffer, only letters, digits, '-' and '_' |
| DmProfiles.ValidIdIsPlain | components/device_manager/profiles/dm_profiles.c:236-252 | a valid id contains no '/', '.' or blank, so it names a profile file safely |
| DmProfiles.StoreActive | components/device_manager/profiles/dm_profiles.c:254-264 | refused with INVALID_ARG exactly without an active profile; otherwise the active id and the first min(count, capacity) devices are written |
| DmProfiles.ProfileTable.constructor | components/device_manager/profiles/dm_profiles.c:171 | the table holds the given configuration |
| DmProfiles.ProfileTable.Find | components/device_manager/profiles/dm_profiles.c:157-169 | the loop returns what the lookup specification finds |
| DmProfiles.ProfileTable.EnsureActiveProfile | components/device_manager/profiles/dm_profiles.c:171-194 | the new configuration and the profile returned are those of the specification |
| DmProfiles.ProfileTable.SyncToActiveProfile | components/device_manager/profiles/dm_profiles.c:223-234 | the new configuration is that of the specification |
| DmExport.OptString | components/device_manager/device_manager_export.c:15-20 | the member is written exactly for a non-empty string |
| DmExport.RequirementsToJson | components/device_manager/device_manager_export.c:64-73 | one requirement object per requirement, in order |
| DmExport.ActionMembers | components/device_manager/device_manager_export.c:33-101 | the type-specific members never use the keys `type` or `delay_ms` |
| DmExport.StepToJson | components/device_manager/device_manager_export.c:23-103 | the exported step is an object whose first member is the type's name |
| DmExport.StepHead | components/device_manager/device_manager_export.c:29-32 | the leading members are only `type` and, when positive, `delay_ms` |
| DmExport.StepHeadRoundTrip | components/device_manager/device_manager_export.c:29-32 | the type and the delay read back from an exported step |
| DmExport.StepRoundTrip | components/device_manager/device_manager_export.c:23-103 | every step the struct can hold is read back unchanged from its export |
| DmExport.MqttRoundTrip | components/device_manager/device_manager_export.c:34-39 | an MQTT publish step is read back unchanged |
| DmExport.PairRoundTrip | components/device_manager/device_manager_export.c:40-47 | an audio or set-flag step is read back unchanged |
| DmExport.WaitRoundTrip | components/device_manager/device_manager_export.c:48-75 | a wait step is read back unchanged |
| DmExport.LoopRoundTrip | components/device_manager/device_manager_export.c:76-86 | a loop step is read back unchanged |
| DmExport.EventRoundTrip | components/device_manager/device_manager_export.c:87-95 | an event step is read back unchanged, its empty topic or payload included |
| DmExport.MqttStepFields | components/device_manager/device_manager_export.c:34-39 | topic, payload, QoS (in its low byte) and retain read back from the exported members |
| DmExport.PairFields | components/device_manager/device_manager_export.c:40-47 | track and blocking, or flag and value, read back from the exported members |
| DmExport.RequirementRoundTrip | components/device_manager/device_manager_export.c:71-72 | a wait requirement is read back from its export |
| DmExport.WaitStepFields | components/device_manager/device_manager_export.c:48-75 | the `wait` member gives back the mode, the timeout and the requirements |
| DmExport.WaitObjectFields | components/device_manager/device_manager_export.c:55-59 | mode, timeout and requirement array read back from the `wait` object |
| DmExport.LoopStepFields | components/device_manager/device_manager_export.c:76-86 | target step and iteration cap read back from the `loop` object |
| DmExport.EventStepFields | components/device_manager/device_manager_export.c:87-95 | event, topic and payload read back, an omitted topic or payload reading as empty |
| DmExportConfig.TopicRoundTrip | components/device_manager/device_manager_export.c:524-535 | a topic binding is read back from its export |
| DmExportConfig.StepNodeRoundTrip | components/device_manager/device_manager_export.c:557-565 | a step of a scenario array is read back as itself |
| DmExportConfig.ScenarioRoundTrip | components/device_manager/device_manager_export.c:542-566 | a scenario within the caps of a device is read back unchanged |
| DmExportConfig.TemplateMember | components/device_manager/device_manager_export.c:568-575 | the `template` member is absent exactly for a device without a template or with a sensor template |
| DmExportConfig.DeviceToJson | components/device_manager/device_manager_export.c:488-576 | a device fails to export exactly when its template is the sensor kind, which template_to_json has no case for |
| DmExportConfig.DeviceFields | components/device_manager/device_manager_export.c:497-575 | an exported device gives back its id, name, topic and scenario arrays and template member |
| DmExportConfig.DeviceReadBack | components/device_manager/device_manager_export.c:488-576 | any object carrying a device's id, name, lists and template is read back as that device |
| DmExportConfig.DeviceListsRoundTrip | components/device_manager/device_manager_export.c:519-566 | the topic and scenario arrays are read back as the device's lists |
| DmExportConfig.TemplateMemberRoundTrip | components/device_manager/device_manager_export.c:568-575 | the template member of a device the parser could build is read back as its template |
| DmExportConfig.DeviceRoundTrip | components/device_manager/device_manager_export.c:488-576 | a device the parser could build is read back unchanged, whatever the runtime snapshot held |
| DmExportConfig.LastValues | components/device_manager/device_manager_export.c:121-150 | the last value of each slot of a snapshot, none without a snapshot |
| DmExportConfig.DeviceCap | components/device_manager/device_manager_export.c:487 | the loop's device cap is the capacity, or MAX_DEVICES when that is zero |
| DmExportConfig.WithSnapshots | components/device_manager/device_manager_export.c:121-122 | each device is paired with the last values the runtime holds for its id |
| DmExportConfig.DevicesFail | components/device_manager/device_manager_export.c:488-576 | the device loop fails exactly when a device it reaches has a sensor template |
| DmExportConfig.DevicesRoundTrip | components/device_manager/device_manager_export.c:488-576 | devices within their caps, as many as the loop takes, are each exported as one object that is read back as the device |
| DmExportConfig.ActiveProfileId | components/device_manager/device_manager_export.c:456-457 | the active profile written is the configured one, or the default id when none is set; never empty |
| DmExportConfig.ProfileFields | components/device_manager/device_manager_export.c:468-479 | an exported profile gives its id, its name (or its id when unnamed), its device count, and `active: true` exactly when its id equals the active one ignoring case |
| DmExportConfig.ExportConfig | components/device_manager/device_manager_export.c:437-576 | the only failure is NO_MEM; a success is a JSON object |
| DmExportConfig.ExportFails | components/device_manager/device_manager_export.c:487-576 | the export fails exactly when a device within the cap has a sensor template |
| DmExportConfig.RootFields | components/device_manager/device_manager_export.c:453-482 | schema, generation, tab limit, active profile, profiles and devices are read back from the document |
| DmExportConfig.ExportProfiles | components/device_manager/device_manager_export.c:456-480 | the document names the active (or default) profile, and every exported profile comes from one of the first MAX_PROFILES profiles with an id |
| DmExportConfig.PopulateScalars | components/device_manager/device_manager_parse.c:596-599 | schema, generation and tab limit are set by the scalar phase only |
| DmExportConfig.SaveReload | components/device_manager/device_manager_export.c:437-576 | saving and loading again gives the same devices, in order, and the same schema, generation and tab limit, when all devices fit |
| DmExportTemplates.IfSet | components/device_manager/device_manager_export.c:15-20 | the member is present exactly for a non-empty string, and reads back as the string |
| DmExportTemplates.MqttPayloadRequiredOmitted | components/device_manager/device_manager_export.c:188-226 | `payload_required` is written exactly when the payload is non-empty or the flag is set |
| DmExportTemplates.MqttIncompleteDropped | components/device_manager/device_manager_export.c:202-205 | every exported rule comes from a rule with a topic and a scenario among the first MQTT_MAX_RULES |
| DmExportTemplates.MqttRuleRoundTrip | components/device_manager/device_manager_export.c:188-226 | a rule with a topic and a scenario is read back unchanged |
| DmExportTemplates.MqttRoundTrip | components/device_manager/device_manager_export.c:188-226 | reading an exported MQTT trigger gives every valid template back |
| DmExportTemplates.FlagRuleRoundTrip | components/device_manager/device_manager_export.c:228-261 | a rule with a flag and a scenario is read back unchanged |
| DmExportTemplates.FlagRoundTrip | components/device_manager/device_manager_export.c:228-261 | reading an exported flag trigger gives every valid template back |
| DmExportTemplates.ConditionRuleRoundTrip | components/device_manager/device_manager_export.c:263-299 | a rule with a flag is read back unchanged |
| DmExportTemplates.ConditionFields | components/device_manager/device_manager_export.c:263-299 | mode, both scenarios and the rules with a flag read back from an exported condition |
| DmExportTemplates.ConditionRoundTrip | components/device_manager/device_manager_export.c:263-299 | reading an exported condition gives every valid template back |
| DmExportTemplates.IntervalRoundTrip | components/device_manager/device_manager_export.c:301-313 | reading an exported interval task gives every valid template back |
| DmExportTemplates.SignalStrings | components/device_manager/device_manager_export.c:166-186 | every string member of a hold template reads back |
| DmExportTemplates.SignalNumbers | components/device_manager/device_manager_export.c:166-186 | the times and the loop flag of a hold template read back |
| DmExportTemplates.SignalRoundTrip | components/device_manager/device_manager_export.c:166-186 | reading an exported hold template gives every valid template back; the heartbeat timeout is always written |
| DmExportTemplates.SequenceOmissions | components/device_manager/device_manager_export.c:315-368 | `timeout_ms` is written exactly when positive, and every exported step comes from a step with a topic |
| DmExportTemplates.SequenceStepRoundTrip | components/device_manager/device_manager_export.c:329-345 | a step with a topic is read back unchanged |
| DmExportTemplates.SequenceFields | components/device_manager/device_manager_export.c:315-368 | steps, timeout, reset flag and every result member of a sequence read back |
| DmExportTemplates.SequenceRoundTrip | components/device_manager/device_manager_export.c:315-368 | reading an exported sequence lock gives every valid template back |
| DmExportTemplates.SlotRoundTrip | components/device_manager/device_manager_export.c:123-150 | a well-formed slot is read back unchanged; its last value, which the reader ignores, does not matter |
| DmExportTemplates.SlotsRoundTrip | components/device_manager/device_manager_export.c:123-151 | the slot loop reads back the slots from any index on |
| DmExportTemplates.UidFields | components/device_manager/device_manager_export.c:116-162 | the slot array and every string member of a validator read back |
| DmExportTemplates.UidRoundTrip | components/device_manager/device_manager_export.c:106-163 | reading an exported validator gives every valid template back, whatever the snapshot held |
| DmExportTemplates.TemplateData | components/device_manager/device_manager_export.c:383-428 | there is a member for every kind except the sensor kind, and it is never named `type` |
| DmExportTemplates.TemplateToJson | components/device_manager/device_manager_export.c:371-434 | NULL exactly for the sensor kind; otherwise a JSON object |
| DmExportTemplates.TemplateHead | components/device_manager/device_manager_export.c:380-428 | the exported type reads back as the template's kind, and the kind's member holds its data |
| DmExportTemplates.UidReadBack | components/device_manager/device_manager_parse.c:411-474 | an object typed as a validator with an exported validator is read back as it |
| DmExportTemplates.SignalReadBack | components/device_manager/device_manager_parse.c:411-474 | an object typed as a hold template with an exported one is read back as it |
| DmExportTemplates.MqttReadBack | components/device_manager/device_manager_parse.c:411-474 | an object typed as an MQTT trigger with an exported one is read back as it |
| DmExportTemplates.FlagReadBack | components/device_manager/device_manager_parse.c:411-474 | an object typed as a flag trigger with an exported one is read back as it |
| DmExportTemplates.ConditionReadBack | components/device_manager/device_manager_parse.c:411-474 | an object typed as a condition with an exported one is read back as it |
| DmExportTemplates.IntervalReadBack | components/device_manager/device_manager_parse.c:411-474 | an object typed as an interval task with an exported one is read back as it |
| DmExportTemplates.SequenceReadBack | components/device_manager/device_manager_parse.c:411-474 | an object typed as a sequence lock with an exported one is read back as it |
| DmExportTemplates.SequenceParsed | components/device_manager/device_manager_parse.c:411-474 | an object typed as a sequence lock whose `sequence` member parses is read back as that sequence |
| DmExportTemplates.TemplateRoundTrip | components/device_manager/device_manager_export.c:371-434 | reading an exported template gives every valid template back |
| RuntimeUid.DropLeadingSpace | components/device_manager/runtime/dm_runtime_uid.c:95-97 | the result is a suffix of the input that does not start with white space, and everything dropped is white space |
| RuntimeUid.DropTrailingSpace | components/device_manager/runtime/dm_runtime_uid.c:101-103 | the result is a prefix of the input that does not end with white space, and everything dropped is white space |
| RuntimeUid.Sanitize | components/device_manager/runtime/dm_runtime_uid.c:86-105 | the cleaned value fits the buffer with its NUL and neither starts nor ends with white space |
| RuntimeUid.SanitizeIdempotent | components/device_manager/runtime/dm_runtime_uid.c:86-105 | cleaning a cleaned value changes nothing |
| RuntimeUid.SanitizeClean | components/device_manager/runtime/dm_runtime_uid.c:86-105 | a value that fits and has no surrounding white space is kept as it is |
| RuntimeUid.SanitizeInto | components/device_manager/runtime/dm_runtime_uid.c:86-105 | a zero-length buffer is left alone; otherwise the buffer holds the cleaned value followed by NUL |
| RuntimeUid.SkipSpace | components/device_manager/runtime/dm_runtime_uid.c:95-97 | the index reached is where the input without its leading white space begins |
| RuntimeUid.CopyBounded | components/device_manager/runtime/dm_runtime_uid.c:98-100 | the buffer starts with the input, cut to one less than the buffer's size |
| RuntimeUid.TrimTrailing | components/device_manager/runtime/dm_runtime_uid.c:101-103 | the kept prefix is the copied text without its trailing white space |
| RuntimeUid.FillAction | components/device_manager/runtime/dm_runtime_uid.c:12-37 | the success or fail outputs are chosen by the outcome; the channel publish, the signal publish and the audio play are each enabled exactly when their topic or track is non-empty, and then carry that template's text |
| RuntimeUid.HandleStep | components/device_manager/runtime/dm_runtime_uid.c:107-158 | the runtime always keeps one value per slot |
| RuntimeUid.HandleStepOutcome | components/device_manager/runtime/dm_runtime_uid.c:107-158 | the reporting slot keeps the cleaned value, or none when it is empty; no other slot changes; INVALID fills the fail outputs and SUCCESS the success outputs, and both start a new round; other events act on nothing |
| RuntimeUid.SurroundingSpaceIgnored | components/device_manager/runtime/dm_runtime_uid.c:115-121 | a reading with leading white space acts exactly as the bare value |
| RuntimeUid.SameCleanSameStep | components/device_manager/runtime/dm_runtime_uid.c:115-121 | two readings that clean to the same value act the same |
| RuntimeUid.PadDropped | components/device_manager/runtime/dm_runtime_uid.c:95-97 | leading white space before a value that does not start with it is all dropped |
| RuntimeUid.UidRuntime.constructor | components/device_manager/runtime/dm_runtime_uid.c:39-50 | the runtime holds the template, a fresh validator and no values |
| RuntimeUid.UidRuntime.Reset | components/device_manager/runtime/dm_runtime_uid.c:61-68 | the validator starts afresh and every kept value is cleared; the template stays |
| RuntimeUid.UidRuntime.SetTemplate | components/device_manager/runtime/dm_runtime_uid.c:52-59 | the new template is installed with a fresh validator and no values |
| RuntimeUid.UidRuntime.HandleValue | components/device_manager/runtime/dm_runtime_uid.c:107-158 | the new state and the action are those of HandleStep on the old state; the template stays |
| RuntimeSequence.PayloadMatches | components/device_manager/runtime/dm_runtime_sequence.c:7-19 | a step without a payload accepts any payload unless it requires one; a step with one needs an equal payload |
| RuntimeSequence.StepMatches | components/device_manager/runtime/dm_runtime_sequence.c:21-30 | the message matches exactly when its topic is non-empty, equals the step's, and the payload matches |
| RuntimeSequence.FirstMatch | components/device_manager/runtime/dm_runtime_sequence.c:95-104 | the index found matches and no earlier step within the cap does; none means no step within the cap matches |
| RuntimeSequence.HandleInRange | components/device_manager/runtime/dm_runtime_sequence.c:70-128 | the expected step stays within the template's steps |
| RuntimeSequence.IgnoredMessages | components/device_manager/runtime/dm_runtime_sequence.c:80-86 | an empty topic or a template without steps changes nothing and reports nothing |
| RuntimeSequence.TimeoutFails | components/device_manager/runtime/dm_runtime_sequence.c:55-93 | a message later than the timeout after a step fails the sequence by timeout and restarts it, whatever the message |
| RuntimeSequence.MatchOutcome | components/device_manager/runtime/dm_runtime_sequence.c:105-127 | the expected step advances the sequence, or completes and restarts it when it is the last; another matching step fails and restarts it when reset_on_error is set and is otherwise ignored; the matched step is reported |
| RuntimeSequence.NoMatchIgnored | components/device_manager/runtime/dm_runtime_sequence.c:105-107 | a message that matches no step changes nothing and reports nothing |
| RuntimeSequence.ExpectedStepAdvances | components/device_manager/runtime/dm_runtime_sequence.c:70-128 | with distinct step topics and no timeout, the expected step's own message advances the sequence, and the last one completes it |
| RuntimeSequence.FirstMatchIs | components/device_manager/runtime/dm_runtime_sequence.c:95-104 | the first matching step is the one whose topic no earlier step has |
| RuntimeSequence.SequenceRuntime.constructor | components/device_manager/runtime/dm_runtime_sequence.c:32-44 | the runtime holds the template and expects its first step |
| RuntimeSequence.SequenceRuntime.Reset | components/device_manager/runtime/dm_runtime_sequence.c:46-53 | the runtime expects the first step again; the template stays |
| RuntimeSequence.SequenceRuntime.HandleMessage | components/device_manager/runtime/dm_runtime_sequence.c:70-128 | the new position and the action are those of Handle on the old position; the template stays |
| RuntimeCondition.RuleCount | components/device_manager/runtime/dm_runtime_condition.c:19 | the loops visit the rules up to the count or the cap, whichever is smaller |
| RuntimeCondition.Fold | components/device_manager/runtime/dm_runtime_condition.c:16-33 | the fold gives whether some rule holds, whether every rule holds, and whether every rule has been reported |
| RuntimeCondition.EvaluateMeaning | components/device_manager/runtime/dm_runtime_condition.c:8-38 | ALL holds exactly when every rule holds and ANY when some rule does; no rules gives false; ready exactly when every rule has been reported |
| RuntimeCondition.Report | components/device_manager/runtime/dm_runtime_condition.c:68-75 | every rule watching the flag (case-insensitively) is set to the new state; the others keep theirs |
| RuntimeCondition.UnwatchedFlagIgnored | components/device_manager/runtime/dm_runtime_condition.c:76-78 | a flag no rule watches changes nothing and reports nothing |
| RuntimeCondition.ReportOutcome | components/device_manager/runtime/dm_runtime_condition.c:58-91 | a watched flag is recorded, the result is the evaluation of the new states, and it is reported as changed exactly on the first evaluation or when it flips |
| RuntimeCondition.RepeatUnchanged | components/device_manager/runtime/dm_runtime_condition.c:79-83 | reporting the same flag state twice in a row never reports a change the second time |
| RuntimeCondition.ConditionRuntime.constructor | components/device_manager/runtime/dm_runtime_condition.c:40-56 | every rule unset, no last result |
| RuntimeCondition.ConditionRuntime.HandleFlag | components/device_manager/runtime/dm_runtime_condition.c:58-91 | the new rule states and the outcome are those of FlagStep on the old ones; the template stays |
| RuntimeCondition.EvaluateLoop | components/device_manager/runtime/dm_runtime_condition.c:16-37 | the loop's result is that of the evaluation |
| TemplateRuntime.PayloadToBool | components/device_manager/template_runtime.c:81-94 | true exactly for "true", "on" or "yes" in any case, or exactly "1" |
| TemplateRuntime.PayloadToBoolExamples | components/device_manager/template_runtime.c:81-94 | "", "0", "off", "false" and "no" read as false; "TRUE", "On" and "1" as true |
| TemplateRuntime.FirstFree | components/device_manager/template_runtime.c:119-177 | the index found is the first unused entry; none exactly when every entry is in use |
| TemplateRuntime.Allocate | components/device_manager/template_runtime.c:119-127 | the loop finds the first unused entry, or none when the table is full |
| TemplateRuntime.FirstFreeIs | components/device_manager/template_runtime.c:119-127 | an unused entry with every earlier entry in use is the one found |
| TemplateRuntime.Install | components/device_manager/template_runtime.c:232-392 | the entry takes the first unused place and nothing else changes; a full table refuses it |
| TemplateRuntime.RegisterGuard | components/device_manager/template_runtime.c:232-415 | a validator needs slots, a hold template a heartbeat topic, the triggers and the condition rules, an interval task a positive interval and a scenario; a sequence lock or a sensor is NOT_SUPPORTED |
| TemplateRuntime.SlotTopics | components/device_manager/template_runtime.c:246-249 | the entry listens on the source id of each slot, up to the slot cap |
| TemplateRuntime.SignalAudioFacts | components/device_manager/template_runtime.c:523-563 | every event keeps the hold flags consistent; a second START or STOP in a row does nothing; START leaves the track playing, STOP pauses an active one, COMPLETED clears all three flags |
| TemplateRuntime.SignalAudioEffects | components/device_manager/template_runtime.c:523-563 | START plays the hold track the first time and resumes it after a pause; STOP pauses only an active track; COMPLETED stops a started track and then plays the completion track when set |
| TemplateRuntime.PublishEffect | components/device_manager/template_runtime.c:451-461 | an empty topic publishes nothing; otherwise the payload is published on it |
| TemplateRuntime.UidEffects | components/device_manager/template_runtime.c:463-487 | the success scenario is triggered exactly on SUCCESS and the fail scenario exactly on INVALID |
| TemplateRuntime.UidOnMessage | components/device_manager/template_runtime.c:497-518 | the entry keeps its device, template and topics, and one value per slot |
| TemplateRuntime.UidOnMessageNext | components/device_manager/template_runtime.c:497-518 | one more slot topic hands the value to the validator exactly when it equals the non-empty message topic |
| TemplateRuntime.UidOnMessageHandled | components/device_manager/template_runtime.c:497-518 | an entry handles the message exactly when one of its slot topics is the non-empty message topic; otherwise it is unchanged and has no effect |
| TemplateRuntime.UidEntryOnMessage | components/device_manager/template_runtime.c:497-518 | the loop over an entry's slot topics computes UidOnMessage over all of them |
| TemplateRuntime.UidTopicStep | components/device_manager/template_runtime.c:498-517 | one turn of that loop extends UidOnMessage by one topic |
| TemplateRuntime.UidTableOnMessage | components/device_manager/template_runtime.c:489-521 | only the entries visited change, no entry appears or vanishes, and the message is handled exactly when some entry visited listens on the topic |
| TemplateRuntime.UidTableIgnores | components/device_manager/template_runtime.c:489-521 | a topic no entry listens on changes no entry and has no effect |
| TemplateRuntime.UidTableIgnoresFrom | components/device_manager/template_runtime.c:489-521 | the same for the first entries of the table |
| TemplateRuntime.ConditionOnFlag | components/device_manager/template_runtime.c:673-695 | the entry keeps its device and template; an unhandled flag changes nothing; at most one scenario is triggered |
| TemplateRuntime.ConditionTriggers | components/device_manager/template_runtime.c:673-695 | the entry handles the flag exactly when its runtime does, and triggers the scenario of the new result exactly when the result changed and that scenario is set |
| TemplateRuntime.ConditionTableOnFlag | components/device_manager/template_runtime.c:672-696 | only the entries visited change, and each triggers at most one scenario |
| TemplateRuntime.TemplateRuntime.constructor | components/device_manager/template_runtime.c:208-225 | every table is empty |
| TemplateRuntime.TemplateRuntime.Register | components/device_manager/template_runtime.c:394-415 | a guard failure is returned unchanged; a failure changes no table; otherwise the entry takes the first unused place of its kind's table, or the call fails with NO_MEM when it is full; only that table changes |
| TemplateRuntime.TemplateRuntime.HandleUidMessage | components/device_manager/template_runtime.c:489-521 | the UID table becomes UidTableOnMessage of the old one; the other tables are unchanged |
| TemplateRuntime.TemplateRuntime.HandleConditionFlag | components/device_manager/template_runtime.c:672-696 | the condition table becomes ConditionTableOnFlag of the old one; the other tables are unchanged |
| TemplateRuntime.TemplateRuntime.GetUidSnapshot | components/device_manager/template_runtime.c:417-449 | the snapshot of the first entry registered for the device, or NOT_FOUND |
| TemplateRuntime.SnapshotOf | components/device_manager/template_runtime.c:426-447 | the device id and, for at most eight slots, each slot's source, title and last value when it has one |
| TemplateRuntime.UidSnapshotFrom | components/device_manager/template_runtime.c:417-449 | NOT_FOUND exactly when no entry from the index on is registered for the device; otherwise the snapshot of such an entry |
| TemplateApplier.DeviceLimit | components/device_manager/template_applier.c:13 | the device limit is the capacity, or MAX_DEVICES when that is zero, and never zero |
| TemplateApplier.FindDevice | components/device_manager/template_applier.c:8-21 | the device found is the first used entry whose non-empty id equals the id ignoring case; none means no used entry matches; an empty id is never found |
| TemplateApplier.FindFrom | components/device_manager/template_applier.c:8-21 | the search from an index finds the first matching device at or after it, within the device limit; none means no device there matches |
| TemplateApplier.EnsureDevice | components/device_manager/template_applier.c:23-39 | a device with the id is cleared and reused in place; otherwise one is appended below the limit; it fails, changing nothing, exactly when the id is absent and the configuration is full; no other device changes |
| TemplateApplier.EnsureThenFind | components/device_manager/template_applier.c:23-39 | after ensure_device with a non-empty id, looking the id up finds exactly the device it returned |
| TemplateApplier.AddStep | components/device_manager/template_applier.c:41-52 | the step is appended unless the scenario already holds MAX_STEPS steps, which leaves it unchanged |
| TemplateApplier.AddedInOrder | components/device_manager/template_applier.c:54-97 | steps added to a scenario with room for them land in order, each exactly when its topic, track or delay is set |
| TemplateApplier.UidScenarioSteps | components/device_manager/template_applier.c:124-144 | a UID scenario holds, in order, the publish, the track and the signal publish that are set, and nothing else |
| TemplateApplier.ApplyUidOutcome | components/device_manager/template_applier.c:146-174 | the apply succeeds exactly when the template has success or fail actions, and otherwise fails with INVALID_STATE and no scenarios; the success scenario comes first; each scenario has one to three steps |
| TemplateApplier.SignalScenarioOrder | components/device_manager/template_applier.c:176-194 | one `signal_complete` scenario holding, in order, the ON publish, the completion track, the delay and the OFF publish, each only when set |
| TemplateApplier.ApplyToConfigOutcome | components/device_manager/template_applier.c:196-225 | an empty device id is an invalid argument and changes nothing; NO_MEM exactly when the device is absent and the configuration is full, changing nothing; otherwise the device is created or cleared before the type is looked at, and only UID and signal-hold templates are applied |
| TemplateApplier.ConfigEditor.Find | components/device_manager/template_applier.c:8-21 | the loop finds the device FindDevice names |
| TemplateApplier.ConfigEditor.ApplyTemplate | components/device_manager/template_applier.c:196-225 | the new configuration and the result are those of ApplyToConfig on the old configuration |
| TemplateFactory.CopyTopicPayload | components/device_manager/template_factory.c:7-28 | a topic keeps its payload; without a topic both are cleared, so a payload never stands without its topic |
| TemplateFactory.AddValuesSpec | components/device_manager/template_factory.c:52-60 | adding the remaining values of a slot succeeds exactly when none is empty, and the slot then holds all of them; an empty value is an invalid argument |
| TemplateFactory.ValidSlotStep | components/device_manager/template_factory.c:42-61 | a valid slot parameter is set and filled, and the fill goes on with that slot appended |
| TemplateFactory.InvalidSlotStops | components/device_manager/template_factory.c:42-61 | an invalid slot parameter stops the fill with its code |
| TemplateFactory.FillSlotsSpec | components/device_manager/template_factory.c:41-61 | the fill succeeds exactly when every remaining slot parameter is valid, with one slot per parameter; a failure carries the code of the first invalid one |
| TemplateFactory.BuildUidSpec | components/device_manager/template_factory.c:30-108 | no slots is an invalid argument and more than eight an invalid size; otherwise the build succeeds exactly when every slot has a source and one to UID_MAX_VALUES non-empty values, fails with the first bad slot's code otherwise, never with INVALID_STATE, and a success holds exactly the slots, values and outputs given |
| TemplateFactory.BuildUidCounts | components/device_manager/template_factory.c:41-61 | a successful build has one slot per parameter, each with as many values |
| TemplateFactory.BuildUidInto | components/device_manager/template_factory.c:30-108 | the loops' result is the build's: the template on success, the code on failure |
| TemplateFactory.BuildSignalHold | components/device_manager/template_factory.c:110-145 | succeeds exactly with a signal topic, a heartbeat topic and a positive hold time, copying every field verbatim; otherwise an invalid argument |
| TemplateFactory.SignalHoldComplete | components/device_manager/template_factory.c:110-145 | a built hold template passes the template runtime's registration check |
| Automation.FindFlag | components/automation_engine/automation_engine.c:87-91 | the slot found is the first in use whose name equals the name ignoring case; none means no slot holds it |
| Automation.FirstFree | components/automation_engine/automation_engine.c:92-94 | the slot found is the first not in use; none means every slot is in use |
| Automation.WithFlag | components/automation_engine/automation_engine.c:77-108 | the table keeps its size |
| Automation.GetFlag | components/automation_engine/automation_engine.c:110-125 | true only for a non-empty name that some slot holds |
| Automation.SetThenGet | components/automation_engine/automation_engine.c:77-125 | a flag that was set reads back as the value it was set to, unless the table was full without it |
| Automation.FindIs | components/automation_engine/automation_engine.c:87-91 | the slot found for a name is the first one holding it |
| Automation.FreeIs | components/automation_engine/automation_engine.c:92-94 | the free slot found is the first one not in use |
| Automation.SetKeepsOthers | components/automation_engine/automation_engine.c:77-125 | setting a flag does not change how any other name reads |
| Automation.SameHolders | components/automation_engine/automation_engine.c:87-91 | two tables with the same holders of a name find it in the same slot |
| Automation.FullTableUnchanged | components/automation_engine/automation_engine.c:96-106 | with no free slot and no slot holding the name, setting it changes nothing |
| Automation.FlagTable.constructor | components/automation_engine/automation_engine.c:49 | every slot of the table is free |
| Automation.FlagTable.Set | components/automation_engine/automation_engine.c:77-108 | the single pass over the slots leaves the table WithFlag describes |
| Automation.FlagTable.Get | components/automation_engine/automation_engine.c:110-125 | the loop reads the value GetFlag describes |
| Automation.FlagTable.RequirementsMet | components/automation_engine/automation_engine.c:140-171 | the loop with its early returns decides what Met states: no requirements hold trivially; ALL needs every requirement and ANY some requirement |
| Automation.UnsetFlagReadsFalse | components/automation_engine/automation_engine.c:110-171 | a requirement on a flag never set holds only when it asks for false |
| Automation.EventNameToType | components/automation_engine/automation_engine.c:127-138 | an event type exactly for a non-empty name that equals one of the map's names ignoring case |
| Automation.EventFrom | components/automation_engine/automation_engine.c:132-136 | a type is found exactly when some remaining entry's name matches, and it is that entry's type |
| Automation.EventNamesRoundTrip | components/automation_engine/automation_engine.c:58-138 | every name of the map, in any letter case, maps to its own event |
| Automation.EventNamesDistinct | components/automation_engine/automation_engine.c:58-68 | no two names of the map are equal ignoring case |
| Automation.FindDevice | components/automation_engine/automation_engine.c:193-210 | the device found is the first whose id or display name equals the key ignoring case; none means no device matches; an empty key is never found |
| Automation.DeviceFrom | components/automation_engine/automation_engine.c:202-208 | the same, from a given index on |
| Automation.FindScenario | components/automation_engine/automation_engine.c:212-240 | the scenario found is the first whose id or name equals the key ignoring case; none means no scenario matches; an empty key is never found |
| Automation.ScenarioFrom | components/automation_engine/automation_engine.c:217-223 | the same, from a given index on |
| Automation.ManualTrigger | components/automation_engine/automation_engine.c:362-376 | NOT_FOUND unless the device and then its scenario are found; otherwise the job names them |
| Automation.BindingTriggers | components/automation_engine/automation_engine.c:283-300 | at most one trigger per binding, each with a non-empty topic and one of the device's scenarios |
| Automation.DeviceTriggers | components/automation_engine/automation_engine.c:281-301 | at most MAX_TOPICS triggers per device among the first MAX_DEVICES, each with a non-empty topic and a scenario of its device |
| Automation.TriggersNameTheirScenario | components/automation_engine/automation_engine.c:283-300 | every trigger starts the scenario its binding names, on the binding's topic |
| Automation.CollectBindings | components/automation_engine/automation_engine.c:283-300 | the inner loop collects the triggers of one device's bindings |
| Automation.Reload | components/automation_engine/automation_engine.c:268-314 | the loops build the trigger table DeviceTriggers describes, which never exceeds the capacity |
| Automation.MatchingJobs | components/automation_engine/automation_engine.c:332-360 | at most one job per trigger, and some job exactly when some trigger's topic equals the message topic |
| Automation.RunStart | components/automation_engine/automation_engine.c:389-401 | a job starts at its first step with every loop counter zero and the current flag table |
| Automation.Next | components/automation_engine/automation_engine.c:402-472 | one step of the job: the counters keep their number and the flag table its size; a WAIT_FLAGS with timeout 0 whose requirements are unmet leaves the state as it is (the C poll at lines 173-190 never returns), and exactly then; any other non-jumping step moves to the next one with the counters unchanged |
| Automation.Run | components/automation_engine/automation_engine.c:389-474 | at most the fuel's number of steps run, each a step of the scenario, and the flag table keeps its size; a run standing at a wait that blocks forever never finishes |
| Automation.FlagTable.ExecuteJob | components/automation_engine/automation_engine.c:389-474 | the loop runs the steps Run lists from the first step with every counter zero, writes the flag table as its SET_FLAG steps do (line 429), and reports the job unfinished where it stops at a wait that would block forever |
| Automation.UnmetWaitBlocks | components/automation_engine/automation_engine.c:173-190 | a WAIT_FLAGS with timeout 0 on a flag never set blocks the job: it never finishes and the flag table stays as it was |
| Automation.SetThenWaitFinishes | components/automation_engine/automation_engine.c:428-433 | a SET_FLAG step followed by a WAIT_FLAGS with timeout 0 on the same flag finishes, because the wait sees the flag the first step wrote |
| Automation.StraightRun | components/automation_engine/automation_engine.c:402-472 | a scenario without loop steps finishes exactly when every WAIT_FLAGS step has a timeout or is met by the flags the earlier SET_FLAG steps leave; it then runs every step once, in order, and leaves the flags those SET_FLAG steps write |
| Automation.BudgetDrops | components/automation_engine/automation_engine.c:434-446 | one more jump of a bounded loop step below its maximum uses up exactly one jump of the budget |
| Automation.RankDrops | components/automation_engine/automation_engine.c:402-472 | with every loop step bounded, each step of the run that does not block at a wait lowers the rank |
| Automation.BoundedLoopsFinish | components/automation_engine/automation_engine.c:389-474 | a scenario whose loop steps all have a maximum and whose WAIT_FLAGS steps all have a timeout always finishes |
| Automation.CountersStayBounded | components/automation_engine/automation_engine.c:434-446 | a bounded loop step never jumps more often than its maximum |
| MqttCore.AclIndex | components/mqtt_core/mqtt_core.c:229-247 | the entry found is the first whose client prefix matches; none means no entry does |
| MqttCore.AclCheck | components/mqtt_core/mqtt_core.c:229-247 | the loop over the table decides what AclAllows states |
| MqttCore.AclAlwaysDecides | components/mqtt_core/mqtt_core.c:77-84 | the last entry matches every client, so the table always decides |
| MqttCore.AclConfines | components/mqtt_core/mqtt_core.c:229-247 | a client whose id starts with one of the named prefixes may publish and subscribe exactly under that entry's topic prefix; the prefix table is at lines 77-84 |
| MqttCore.AclDefaultAllowsAll | components/mqtt_core/mqtt_core.c:229-247 | any other client falls to the default entry and may publish and subscribe to every topic; the default entry is line 83 |
| MqttCore.TopicForEvent | components/mqtt_core/mqtt_core.c:249-257 | a topic exactly for a type the outgoing map lists, and it is that entry's topic |
| MqttCore.TypeForTopic | components/mqtt_core/mqtt_core.c:264-277 | an event exactly when some incoming entry's topic is a prefix of the topic, and it is that entry's type; EVENT_NONE otherwise |
| MqttCore.FindTypeByTopic | components/mqtt_core/mqtt_core.c:264-277 | the loop finds the type TypeForTopic describes |
| MqttCore.CommandTopicsRoundTrip | components/mqtt_core/mqtt_core.c:91-104 | audio, relay and web commands the broker publishes come back as the same event when it receives them |
| MqttCore.StatusTopicsNotEchoed | components/mqtt_core/mqtt_core.c:91-104 | card and status events the broker publishes are not turned back into events |
| MqttCore.NoIncomingPrefix | components/mqtt_core/mqtt_core.c:264-277 | a topic that starts like no incoming entry gives EVENT_NONE; the incoming table is at lines 100-104 |
| MqttCore.SkipLevel | components/mqtt_core/mqtt_core.c:290-296 | the rest of the topic is a suffix that is empty or starts at a level separator |
| MqttCore.PlusBeforeLevelAsWritten | components/mqtt_core/mqtt_core.c:288-297 | as written, the filter "a/+/c" does not match the topic "a/b/c" |
| MqttCore.PlusBeforeLevelCorrected | components/mqtt_core/mqtt_core.c:288-297 | with the corrected '+' step, "a/+/c" matches "a/b/c" |
| MqttCore.PlainFilterExact | components/mqtt_core/mqtt_core.c:279-312 | a filter without wildcards matches exactly the identical topic |
| MqttCore.HashMatchesRest | components/mqtt_core/mqtt_core.c:285-310 | a plain prefix followed by '#' matches exactly the topics that start with that prefix |
| MqttCore.PlusMatchesOneLevel | components/mqtt_core/mqtt_core.c:288-297 | for the corrected matcher (see Findings), '+' consumes exactly one topic level: the topic matches exactly when its rest matches the rest of the filter |
| MqttCore.AsWrittenAgreesWithoutPlus | components/mqtt_core/mqtt_core.c:279-312 | on filters without '+' the matcher as written and the corrected one give the same answer for every topic |
| MqttCore.SkipLevelOf | components/mqtt_core/mqtt_core.c:290-292 | skipping a level stops at the next separator |
| MqttCore.SkipTopicLevel | components/mqtt_core/mqtt_core.c:290-292 | the inner loop reaches the end of the current topic level |
| MqttCore.TopicMatchesFilter | components/mqtt_core/mqtt_core.c:279-312 | the loop decides what Matches states, with the corrected '+' step |
| MqttCore.MatchEnd | components/mqtt_core/mqtt_core.c:305-311 | once filter or topic is used up, they match exactly when both are, or the filter is just '#' |
| MqttCore.Enc | components/mqtt_core/mqtt_core.c:504-516 | the field is one to four bytes long |
| MqttCore.LowByte | components/mqtt_core/mqtt_core.c:508-512 | each byte is the low seven bits, with the top bit set while more of the value follows |
| MqttCore.EncodeLength | components/mqtt_core/mqtt_core.c:504-516 | the field is one to four bytes, its first byte carries the value's low seven bits, and it is a single byte exactly for values below 128 |
| MqttCore.EncodeRemainingLength | components/mqtt_core/mqtt_core.c:504-516 | the do-while loop writes the field EncodeLength describes |
| MqttCore.EncStep | components/mqtt_core/mqtt_core.c:507-514 | one turn writes the next byte, after which the field is complete or the rest of the value follows |
| MqttCore.Digits | components/mqtt_core/mqtt_core.c:507-514 | a value has at least one base-128 digit |
| MqttCore.EncShape | components/mqtt_core/mqtt_core.c:504-516 | one byte per base-128 digit, up to four; every byte but the last has the continuation bit; the last has it clear exactly when the value fits, so larger values are cut off |
| MqttCore.ReadRemainingLength | components/mqtt_core/mqtt_core.c:340-357 | the do-while loop reads the value and length ReadLength describes, or fails |
| MqttCore.LengthRoundTrip | components/mqtt_core/mqtt_core.c:340-357 | a value below 2,097,152 written as a field by `encode_remaining_length` (lines 504-516) is read back by `read_remaining_length` (this range) with its length, whatever follows |
| MqttCore.ReaderRefusesFourBytes | components/mqtt_core/mqtt_core.c:349-353 | three bytes that all carry the continuation bit are refused |
| MqttCore.ReadLengthBounds | components/mqtt_core/mqtt_core.c:340-357 | what the reader accepts is one to three bytes long and below 2,097,152 |
| MqttCore.Chars | components/mqtt_core/mqtt_core.c:645 | one character per byte, of the same value |
| MqttCore.ParseUtf8Str | components/mqtt_core/mqtt_core.c:635-649 | the string read has the big-endian length of its prefix, fits the buffer with its NUL, and the offset moves just past it |
| MqttCore.EncodeUtf8Str | components/mqtt_core/mqtt_core.c:640 | a string field is two bytes longer than the string |
| MqttCore.Utf8StrRoundTrip | components/mqtt_core/mqtt_core.c:635-649 | a string field between any bytes is read back when it fits the output buffer, with the offset just past it, and refused when it does not fit |
| MqttCore.RetainFind | components/mqtt_core/mqtt_core.c:456-467 | the slot found is the first in use holding exactly the topic; none means no slot does |
| MqttCore.RetainFree | components/mqtt_core/mqtt_core.c:476-481 | the slot found is the first not in use; none means every slot is in use |
| MqttCore.StoreThenFind | components/mqtt_core/mqtt_core.c:469-502 | after storing a topic that fits, looking it up finds the message, its payload cut to 511 characters; only a full table without the topic drops it, unchanged |
| MqttCore.RetainFindIs | components/mqtt_core/mqtt_core.c:461-465 | the slot found is the first one holding the topic |
| MqttCore.StoreKeepsOthers | components/mqtt_core/mqtt_core.c:469-502 | storing a topic does not change what any other topic finds |
| MqttCore.RetainTable.Get | components/mqtt_core/mqtt_core.c:456-467 | the loop finds the slot RetainFind names |
| MqttCore.RetainTable.Store | components/mqtt_core/mqtt_core.c:469-502 | the table becomes RetainStore of the old table |
| MqttCore.Grant | components/mqtt_core/mqtt_core.c:775-789 | 0x80 exactly when the ACL denies the filter or the session already has eight subscriptions, changing nothing; otherwise the requested QoS capped at 1, with the subscription appended |
| MqttCore.QosReadPastEnd | components/mqtt_core/mqtt_core.c:770-775 | as written, a filter ending exactly at the end of the packet makes the QoS read go past it; with the bounds check the packet is refused |
| MqttCore.GuardChangesOnlyOverrun | components/mqtt_core/mqtt_core.c:770-790 | wherever the code as written stays inside the packet, the bounds check changes nothing |
| MqttCore.SubscribeBounds | components/mqtt_core/mqtt_core.c:758-793 | a session only gains subscriptions and never holds more than eight; a SUBACK carries the packet id and at most eight return codes, each 0, 1 or 0x80 |
| MqttCore.Session.HandleSubscribe | components/mqtt_core/mqtt_core.c:758-793 | the subscriptions and the answer are those of Subscribe with the bounds check, on the old subscriptions |
| Laser.Gap | components/web_ui/web_ui_laser.c:320-327 | the gap lies in [0, 2000] ms and equals the real gap when that lies there |
| Laser.HeartbeatSpec | components/web_ui/web_ui_laser.c:275-340 | a heartbeat is ignored while the game is disabled or the hold is complete; otherwise a present receiver adds the clamped gap to total and streak, a new arrival restarts the streak, and the relay fires exactly when the hold time (total in cumulative mode, streak otherwise) is first reached |
| Laser.HeartbeatConsistent | components/web_ui/web_ui_laser.c:275-340 | a heartbeat keeps the state consistent: the streak stays within the total, the relay never fires before the hold completes, and a disabled game holds nothing |
| Laser.RelayFiresOnce | components/web_ui/web_ui_laser.c:275-284 | once fired, the relay does not fire again on any later heartbeat |
| Laser.CumulativeTotalGrows | components/web_ui/web_ui_laser.c:320-329 | heartbeats never lower the total |
| Laser.Timeout | components/web_ui/web_ui_laser.c:240-254 | the receiver is gone and the streak ends; continuous mode also forgets the total and re-arms the relay and the hold |
| Laser.SetEnabled | components/web_ui/web_ui_laser.c:286-304 | an unchanged setting does nothing; disabling resets every counter and flag |
| Laser.Save | components/web_ui/web_ui_laser.c:360-413 | a save leaves the configuration and the state consistent |
| Laser.SaveSpec | components/web_ui/web_ui_laser.c:360-413 | each track becomes the parameter cut to 95 characters and then URL-decoded when that is not empty, and stays otherwise, so it fits its 96-byte field; the hold time changes only to, and exactly to, a given value inside (0, 3600); a given mode selects cumulative exactly for "cumulative"; a given enable parameter sets the flag; the relay and both counters are reset |
| Laser.HoldCutBeforeDecoding | components/web_ui/web_ui_laser.c:363-373 | a hold track of forty '/' sent as "%2f" escapes is stored as 31 '/' followed by "%2" |
| Laser.LaserGame.constructor | components/web_ui/web_ui_laser.c:456-467 | the game starts idle with the loaded configuration |
| Laser.LaserGame.HandleHeartbeat | components/web_ui/web_ui_laser.c:306-340 | the new state and the firing are those of Heartbeat; the configuration stays |
| Laser.LaserGame.HandleTimeout | components/web_ui/web_ui_laser.c:240-254 | the new state is Timeout of the old one; the configuration stays |
| Laser.LaserGame.SetEnabledLocked | components/web_ui/web_ui_laser.c:286-304 | the configuration and the state become those of SetEnabled |
| Laser.LaserGame.ApplySaveFields | components/web_ui/web_ui_laser.c:363-395 | the configuration takes the request's fields, each track cut to 95 characters and then decoded; the state stays |
| Laser.LaserGame.SaveSettings | components/web_ui/web_ui_laser.c:360-413 | the configuration and the state become those of Save, whose tracks are cut and then decoded |
| Robot.Kept | components/web_ui/web_ui_robot.c:124-139 | only letters, digits, '_' and '-' are kept, never more than the source holds |
| Robot.Sanitize | components/web_ui/web_ui_robot.c:124-139 | a zero-sized buffer is left untouched; otherwise the name fits the buffer with its terminator and holds only allowed characters |
| Robot.KeptClean | components/web_ui/web_ui_robot.c:124-139 | a clean name keeps every character |
| Robot.KeptAppend | components/web_ui/web_ui_robot.c:124-139 | keeping distributes over concatenation |
| Robot.SanitizeIdempotent | components/web_ui/web_ui_robot.c:124-139 | sanitising its own output into the same buffer gives the same name |
| Robot.SanitizeKeepsOrder | components/web_ui/web_ui_robot.c:124-139 | appending a character outside the allowed set does not change the result |
| Robot.SanitizeCleanFits | components/web_ui/web_ui_robot.c:124-139 | a clean name that fits is kept whole |
| Robot.KeptStep | components/web_ui/web_ui_robot.c:130-137 | one character of the loop is kept or skipped |
| Robot.SanitizeName | components/web_ui/web_ui_robot.c:124-139 | the copying loop gives what Sanitize states |
| Robot.RobotSettings.constructor | components/web_ui/web_ui_robot.c:29-83 | the laser directory defaults and eight empty presets |
| Robot.RobotSettings.SaveConfig | components/web_ui/web_ui_robot.c:153-175 | each directory parameter is cut to 95 characters, then URL-decoded, and replaces the stored directory when the result is not empty; every stored directory fits its 96-byte field; presets stay |
| Robot.DirDecoded | components/web_ui/web_ui_robot.c:156-165 | a directory parameter is decoded: "a%20b" is stored as "a b" |
| Robot.RobotSettings.SetPreset | components/web_ui/web_ui_robot.c:195-214 | an index outside [0, 8) is refused and changes nothing; otherwise only that slot changes, to the name cut to the 47 characters the query buffer `name_raw` holds and then sanitised |
| Robot.NameCutBeforeSanitising | components/web_ui/web_ui_robot.c:202-210 | the name is cut to the 47 characters `name_raw` holds before it is sanitised: two dropped characters in front of 47 letters leave 45 letters, not 47 |
| Robot.RobotSettings.PlayPreset | components/web_ui/web_ui_robot.c:216-236 | an index outside [0, 8) or an empty slot is refused; otherwise the preset's MP3 path is published on audio/play |
| Robot.PresetPathIsPlain | components/web_ui/web_ui_robot.c:124-236 | a preset set through SetPreset names a file without '/' or '.', so the path stays inside the audio directory |
| Pictures.SkipSeps | components/web_ui/web_ui_pictures.c:63-65 | the position reached lies between the start and the end of the text |
| Pictures.SkipSepsSpec | components/web_ui/web_ui_pictures.c:63-65 | only commas and spaces are passed, and the stop is at neither |
| Pictures.TokenEnd | components/web_ui/web_ui_pictures.c:71-73 | a token is at most fifteen characters long |
| Pictures.TokenEndFrom | components/web_ui/web_ui_pictures.c:71-73 | the same, from a position inside the token |
| Pictures.TokenEndFromSpec | components/web_ui/web_ui_pictures.c:71-73 | a token holds no comma and ends at a comma, at the end of the text, or after fifteen characters |
| Pictures.TokenEndFromIs | components/web_ui/web_ui_pictures.c:71-73 | a stretch without commas that ends where a token must end is the token |
| Pictures.ParseFrom | components/web_ui/web_ui_pictures.c:62-80 | at most the remaining room of UIDs |
| Pictures.ParseStep | components/web_ui/web_ui_pictures.c:62-80 | one round reads the token after the separators and goes on after its comma |
| Pictures.ParseStepAt | components/web_ui/web_ui_pictures.c:71-79 | the same for a token that starts at the current position |
| Pictures.ParseCsv | components/web_ui/web_ui_pictures.c:55-82 | at most ten UIDs, each non-empty, at most fifteen characters, without a comma and not starting with a separator |
| Pictures.ParseFromTokens | components/web_ui/web_ui_pictures.c:62-80 | every token read is such a UID |
| Pictures.JoinHead | components/web_ui/web_ui_pictures.c:55-82 | a joined list starts with its first UID, followed by a comma and the rest when there is more |
| Pictures.JoinedAtJoin | components/web_ui/web_ui_pictures.c:55-82 | a joined list sits in the text from its position on |
| Pictures.ParseJoinedStep | components/web_ui/web_ui_pictures.c:62-80 | reading joined UIDs reads the first and goes on after its comma |
| Pictures.ParseAtEnd | components/web_ui/web_ui_pictures.c:62 | nothing is read at the end of the text |
| Pictures.AllUidsEach | components/web_ui/web_ui_pictures.c:55-82 | a list whose members are each UIDs is a list of UIDs |
| Pictures.ParseJoinedAt | components/web_ui/web_ui_pictures.c:62-80 | joined UIDs, no more than the room, are read back in order |
| Pictures.ParseJoinRoundTrip | components/web_ui/web_ui_pictures.c:55-82 | at most ten well-formed UIDs joined by commas parse back to the same UIDs |
| Pictures.LongUidSplits | components/web_ui/web_ui_pictures.c:71-79 | a token longer than fifteen characters is cut, and the rest of it is read as the next UID |
| Pictures.ParseUidsCsv | components/web_ui/web_ui_pictures.c:55-82 | the scanning loop reads what ParseCsv states |
| Pictures.ParseLoopStep | components/web_ui/web_ui_pictures.c:62-80 | one round of the loop moves forward and appends the token ParseFrom reads |
| Pictures.SkipSeparators | components/web_ui/web_ui_pictures.c:63-65 | the loop stops where SkipSeps does |
| Pictures.ReadToken | components/web_ui/web_ui_pictures.c:69-73 | the loop copies exactly the token |
| Pictures.CheckUidAllowed | components/web_ui/web_ui_pictures.c:133-145 | allowed exactly for a reader inside [0, 5) whose list holds the non-empty UID |
| Pictures.AllMatchLocked | components/web_ui/web_ui_pictures.c:147-190 | the loop decides what AllMatch states: some reader is configured, and every configured one has been seen with an allowed UID |
| Pictures.NoConfiguredNeverMatches | components/web_ui/web_ui_pictures.c:177-180 | without a configured reader the game is never won |
| Pictures.PictureBoard.constructor | components/web_ui/web_ui_pictures.c:84-87 | every reader unconfigured and unseen, no tracks |
| Pictures.PictureBoard.HandleScan | components/web_ui/web_ui_pictures.c:243-257 | a reader outside [0, 5) is ignored; otherwise its last UID becomes the reported one, cut to fifteen characters, and it counts as seen; the result is whether the game is won |
| Pictures.PictureBoard.StartForceCycle | components/web_ui/web_ui_pictures.c:276-285 | every reader must report again; nothing else changes |
| Pictures.PictureBoard.DeviceSave | components/web_ui/web_ui_pictures.c:369-401 | a 1-based index outside [1, 5] is refused and changes nothing; otherwise the reader gets the UIDs parsed from the `uids` parameter cut to 255 characters and then URL-decoded, forgets its last UID and is unseen |
| Pictures.PictureBoard.TracksSave | components/web_ui/web_ui_pictures.c:403-433 | each parameter is cut to 95 characters, then URL-decoded, and replaces the stored track when the result is not empty; every stored track fits its 96-byte field |
| Pictures.ForcedCycleFailsUntilScanned | components/web_ui/web_ui_pictures.c:160-165 | after a forced cycle the game cannot be won until every configured reader has reported again |
| Pictures.SavedDeviceMustRescan | components/web_ui/web_ui_pictures.c:391-393 | a saved reader with UIDs keeps the game from being won until it is scanned again |
| Pictures.DecodePluses | components/web_ui/web_ui_utils.c:23-24 | '+' characters decode to as many blanks |
| Pictures.SkipSepsToEnd | components/web_ui/web_ui_pictures.c:63-65 | from inside a run of separators that reaches the end, the skip reaches the end |
| Pictures.BlanksFillUidBuffer | components/web_ui/web_ui_pictures.c:376-389 | encoded blanks count against the 255 characters `uids_enc` keeps: 260 '+' followed by "ABCD" save the reader with no UID |
| Pictures.ScanAllowedWins | components/web_ui/web_ui_pictures.c:147-190 | a scan of an allowed UID on the only configured reader wins |
| AudioPlayer.DetectFormatRecognises | components/audio_player/audio_player.c:319-334 | every header with a magic is recognised as its own format whatever follows, and unknown exactly when it has none |
| AudioPlayer.ShortHeaders | components/audio_player/audio_player.c:319-334 | headers too short for any magic are unknown; the magic alone is enough for every format but WAV |
| AudioPlayer.ToInt32 | components/audio_player/audio_player.c:191 | the int conversion keeps values up to INT_MAX and stays in the 32-bit range |
| AudioPlayer.ProgressAsWritten | components/audio_player/audio_player.c:190-193 | as written the percentage never exceeds 100, whatever the wrap |
| AudioPlayer.Progress | components/audio_player/audio_player.c:190-193 | the percentage lies in [0, 100] and is 0 before any byte is read |
| AudioPlayer.ProgressMonotone | components/audio_player/audio_player.c:190-193 | more bytes read never lower the progress |
| AudioPlayer.ProgressFull | components/audio_player/audio_player.c:190-193 | once every byte is read the progress is 100 |
| AudioPlayer.ProgressIsPercentage | components/audio_player/audio_player.c:190-193 | below the cap the progress is the whole percentage of the bytes read |
| AudioPlayer.ProgressAsWrittenSmallFiles | components/audio_player/audio_player.c:191 | up to 42,949,672 bytes the 32-bit product does not wrap and the code gives the promised percentage |
| AudioPlayer.ProgressWrapsOnLargeFiles | components/audio_player/audio_player.c:191 | with 50,000,000 of 60,000,000 bytes read the code shows 11 % where 83 % is meant |
| AudioPlayer.SetPlaying | components/audio_player/audio_player.c:173-185 | starting only sets the flag; stopping also clears pause, progress, position, duration and bitrate; the volume stays |
| AudioPlayer.UpdateProgress | components/audio_player/audio_player.c:187-201 | each of progress, position and duration changes only when its input is known, and nothing else does |
| AudioPlayer.ClampVolume | components/audio_player/audio_player.c:878-882 | the request clamped to [0, 100] |
| AudioPlayer.Player.constructor | components/audio_player/audio_player.c:69-86 | volume 70, nothing loaded or queued, not paused, channel disabled, an empty status showing the volume |
| AudioPlayer.Player.LoadVolume | components/audio_player/audio_player.c:784-798 | a stored volume replaces the current one unclamped, the status shows it, and saving is allowed from then on |
| AudioPlayer.Player.SetVolume | components/audio_player/audio_player.c:876-895 | the clamped volume is stored; the same volume changes nothing else; otherwise the status shows it and a save is queued once the stored volume has been loaded |
| AudioPlayer.Player.SaveTaskStep | components/audio_player/audio_player.c:232-243 | a queued volume is taken, the queue empties, and only a volume in [0, 100] is ever written |
| AudioPlayer.Player.Pause | components/audio_player/audio_player.c:897-909 | a second pause does nothing; otherwise the channel is disabled and the status shows the pause |
| AudioPlayer.Player.Resume | components/audio_player/audio_player.c:911-928 | resuming a running player does nothing; otherwise the channel is enabled unless it is already, an enable result of OK or INVALID_STATE counting as enabled, and the status shows playing |
| AudioPlayer.Player.StatusSetPlaying | components/audio_player/audio_player.c:173-185 | the status becomes SetPlaying of the old one; volume and queue stay |
| AudioPlayer.Player.StatusUpdateProgress | components/audio_player/audio_player.c:187-201 | the status becomes UpdateProgress of the old one, with the percentage computed without the wrap |
| AudioPlayer.SetVolumeIdempotent | components/audio_player/audio_player.c:876-895 | clamping a clamped volume changes nothing |
| JsValue.PutOfGet | components/web_ui/assets/devices_wizard.js:879 | writing a key's own defined value back into an object leaves the object unchanged |
| JsValue.GetPut | components/web_ui/assets/devices_wizard.js:879-880 | after `obj[key] = x`, the key reads `x` and every other key reads as before; storing never turns a value into an object |
| JsValue.PutOver | components/web_ui/assets/devices_wizard.js:879 | a second store under the same key replaces the first |
| JsValue.Push | components/web_ui/assets/devices_wizard.js:1783 | `push` succeeds exactly on arrays, and then appends the value at the end with the earlier elements unchanged |
| JsValue.Digits | components/web_ui/assets/devices_wizard.js:2190-2195 | the decimal text of a number is non-empty and made only of digits |
| JsValue.DigitPrefix | components/web_ui/assets/devices_wizard.js:2026-2029 | the digits `parseInt` consumes are the longest run of digits at the start of the text |
| JsValue.SkipSpaceFacts | components/web_ui/assets/devices_wizard.js:2026-2029 | `parseInt` skips leading ECMAScript white space (tab, vertical tab, form feed, blank, line terminators, byte order mark and every Unicode Zs space separator): what remains is a suffix that does not start with such a character |
| JsValue.SkipSpaceEnd | components/web_ui/assets/devices_wizard.js:453 | removing trailing ECMAScript white space (Unicode Zs separators and line terminators included) leaves a prefix that does not end in such a character |
| JsValue.Trim | components/web_ui/assets/devices_wizard.js:1100 | `trim()` gives characters of the text, with no ECMAScript white space (Unicode Zs separators and line terminators included) at either end |
| JsValue.TrimFacts | components/web_ui/assets/devices_wizard.js:1100 | trimming text without ECMAScript white space at either end changes nothing, and a leading blank is trimmed away |
| JsValue.IdeographicSpaceSkipped | components/web_ui/assets/devices_wizard.js:2026-2029 | the ideographic space U+3000, a Zs separator, is white space to both `parseInt` (it reads the text after it) and `trim` |
| JsValue.DigitPrefixOfDigits | components/web_ui/assets/devices_wizard.js:2026-2029 | text made only of digits is consumed whole |
| JsValue.DigitsValueOfDigits | components/web_ui/assets/devices_wizard.js:2026-2029 | the decimal text of a natural number reads back as that number; the text is what `String` gives in `toSafeString` (lines 2190-2195) |
| JsValue.ParseIntOfDecimal | components/web_ui/assets/devices_wizard.js:2026-2029 | `parseInt(String(n), 10)` is `n` for every integer, negative ones included; the text is what `String` gives in `toSafeString` (lines 2190-2195) |
| JsValue.SkipSpaceOfDigits | components/web_ui/assets/devices_wizard.js:2026-2029 | text starting with a digit loses nothing to white-space skipping |
| JsValue.SkipSpaceOfSign | components/web_ui/assets/devices_wizard.js:2026-2029 | text starting with a minus sign loses nothing to white-space skipping |
| JsValue.ParseIntDigits | components/web_ui/assets/devices_wizard.js:2026-2029 | text whose first non-blank character starts a run of digits parses to the value of that run |
| JsValue.ParseIntSigned | components/web_ui/assets/devices_wizard.js:2026-2029 | a minus sign before a run of digits gives the negated value |
| JsValue.Split | components/web_ui/assets/devices_wizard.js:1275 | `split` on a one-character separator gives at least one piece, and no piece contains the separator |
| JsValue.SplitWithout | components/web_ui/assets/devices_wizard.js:1275 | text without the separator splits into a single piece, the text itself |
| JsValue.SplitPrefix | components/web_ui/assets/devices_wizard.js:1275 | a separator-free head joins the first piece of the tail; followed by a separator it becomes a piece of its own |
| JsValue.ToIntOfNumber | components/web_ui/assets/devices_wizard.js:2026-2029 | `toInt` keeps an integer, and also the decimal text of an integer |
| JsValue.ToIntOfNonNumeric | components/web_ui/assets/devices_wizard.js:2026-2029 | `undefined`, `null`, booleans, the empty string and an object all become 0 |
| JsValue.IntOrDefault | components/web_ui/assets/devices_wizard.js:2031-2037 | the parsed integer when the text parses; otherwise the fallback if it is a number, else 0 |
| JsValue.IntOrDefaultWithoutFallback | components/web_ui/assets/devices_wizard.js:2026-2037 | `intOrDefault` without a fallback agrees with `toInt` on every value |
| JsValue.Clamp | components/web_ui/assets/devices_wizard.js:2039-2041 | the result lies within the bounds when they are ordered; a value inside is kept; a value below becomes the lower bound and one above becomes the upper bound |
| JsValue.ToSafeString | components/web_ui/assets/devices_wizard.js:2190-2195 | `null` and `undefined` become the empty string; a string is kept; a number becomes text that parses back to it |
| JsValue.NormalizeValue | components/web_ui/assets/devices_wizard.js:1801-1809 | a number input gives its parsed integer, or 0; otherwise "true" and "false" become booleans and any other text stays a string |
| JsValue.NormalizeValueRoundTrip | devices_remote.js:596-604 | normalising the text an input shows for a stored number, boolean or other string gives back the stored value |
| JsValue.SpliceStart | components/web_ui/assets/devices_wizard.js:2147-2159 | the start of `splice` lies in [0, len]; a start in range is kept, and a negative start counts from the end |
| JsValue.SpliceOut | components/web_ui/assets/devices_wizard.js:2147-2158 | `splice(start, 1)` removes one element when the start is inside the array and nothing otherwise; it never adds elements |
| JsValue.SpliceOutNaNOrNegative | components/web_ui/assets/devices_editor.js:787-795 | on a non-empty array `splice(NaN, 1)` removes the first element and `splice(-1, 1)` the last |
| JsValue.SpliceOutAt | components/web_ui/assets/devices_wizard.js:2147-2158 | removing at an index keeps all other elements in order and loses exactly that one |
| JsValue.InsertAt | components/web_ui/assets/devices_wizard.js:2159 | `splice(k, 0, x)` puts `x` at `k`, shifts the tail by one and keeps every element |
| JsValue.JsonCloneIsJson | components/web_ui/assets/devices_wizard.js:1910-2062 | a `JSON.parse(JSON.stringify(...))` copy holds only JSON values |
| JsValue.JsonCloneKeepsJson | components/web_ui/assets/devices_wizard.js:1910-2062 | a value that is already JSON is copied exactly |
| JsValue.JsonCloneTwice | components/web_ui/assets/devices_wizard.js:1910-2062 | copying a copy gives the same copy |
| JsPath.RebuildThrew | components/web_ui/assets/devices_wizard.js:876-883 | once a step throws, storing back up the path still throws |
| JsPath.WalkLoop | components/web_ui/assets/devices_wizard.js:876-883 | the key-by-key loop (create `{}` for a missing key, descend, set the leaf) gives the same result as the recursive walk over the path; `updateStepField` walks its dotted path with the same loop (lines 1274-1281) |
| JsPath.Ensure | components/web_ui/assets/devices_wizard.js:876-883 | `ensure(obj, path)` run by its loop agrees with the path specification |
| JsPath.WalkDefined | components/web_ui/assets/devices_wizard.js:876-883 | a walk that completes never stores `undefined` into a parent |
| JsPath.EnsureKeepsExisting | components/web_ui/assets/devices_wizard.js:876-883 | when every prefix of the path is already an object, `ensure` changes nothing |
| JsPath.EnsureIdempotent | components/web_ui/assets/devices_wizard.js:876-883 | calling `ensure` again on its result changes nothing |
| JsPath.EnsureReaches | components/web_ui/assets/devices_wizard.js:876-883 | on a paved path `ensure` succeeds and leaves an object or array at every prefix, so the caller can read through it |
| JsPath.PavedEmpty | components/web_ui/assets/devices_wizard.js:876-883 | every path is paved below a fresh `{}` |
| JsPath.SetPathSiblings | components/web_ui/assets/devices_wizard.js:1274-1281 | a dotted field update changes no key beside the path, at any level |
| JsPath.NothingBelowUndefined | components/web_ui/assets/devices_wizard.js:879 | below a missing key or a fresh `{}`, every read is `undefined` |
| JsPath.GetPathOfUndefined | components/web_ui/assets/devices_wizard.js:879 | below `undefined`, every path reads `undefined` |
| JsPath.EnsureLeaf | components/web_ui/assets/devices_wizard.js:876-883 | when the parents are paved `ensure` succeeds; the leaf keeps a defined value and becomes `{}` where it was `undefined` |
| JsPath.SetPathReadBack | components/web_ui/assets/devices_wizard.js:1274-1281 | when the parents are paved, a dotted field update succeeds and the leaf reads back as the stored value |
| EditorOps.Moved | components/web_ui/assets/wizard/wizard_05_mutations.js:250-251 | the two splices of `moveStep` keep the list's length and elements, put the moved element at the target, and leave the other elements in their order |
| EditorOps.MovedBack | components/web_ui/assets/wizard/wizard_05_mutations.js:244-254 | moving an element back from the target to its old place restores the list |
| EditorOps.EditRequirement | components/web_ui/assets/wizard/wizard_04_helpers.js:281-282 | `flag` stores the text, `state` stores whether the text is "true", and every other property of the requirement is kept |
| EditorOps.CloneDevice | components/web_ui/assets/wizard/wizard_05_mutations.js:150-162 | the copy is inserted right after the selected device, and the devices before and after it are unchanged |
| EditorOps.SpliceOutInsertAt | components/web_ui/assets/wizard/wizard_05_mutations.js:250-251 | splicing out the element just inserted gives the list back |
| EditorOps.InsertAtSpliceOut | components/web_ui/assets/wizard/wizard_05_mutations.js:250-251 | putting an element back where it was spliced out restores the list |
| EditorOps.SpliceOutNormal | components/web_ui/assets/wizard/wizard_05_mutations.js:240 | a splice at any index is the splice at its normalised start |
| EditorOps.AddScenarioAppends | components/web_ui/assets/wizard/wizard_05_mutations.js:197-205 | `addScenario` throws exactly when `scenarios` is truthy but not an array; otherwise the earlier scenarios keep their order and the new last one, the one the handler selects, has the given id, the name "Scenario" and no steps |
| EditorOps.AppendToFacts | components/web_ui/assets/wizard/wizard_05_mutations.js:182-230 | replacing a falsy list with `[]` and then calling `push` throws exactly when the old value is truthy but not an array; otherwise the list is the old array, or a new `[]`, with the item at the end, and no other property changes |
| EditorOps.RemoveFromFacts | components/web_ui/assets/wizard/wizard_05_mutations.js:188-242 | a `NaN` index or a falsy list leaves the owner unchanged; a truthy non-array list throws; an array loses exactly the element at the normalised start and keeps the others in order, and no other property changes |
| EditorOps.UpdateItemFieldFacts | components/web_ui/assets/wizard/wizard_04_helpers.js:58-64 | only a truthy element in range is edited; it reads the new value back under the field and keeps its other properties, and no other element or property changes |
| EditorOps.MoveStepGuard | components/web_ui/assets/wizard/wizard_05_mutations.js:244-254 | a step is moved exactly when the list is an array, the step at the index is truthy and the target is inside the list; otherwise the scenario is unchanged |
| EditorOps.MoveStepNotArray | components/web_ui/assets/wizard/wizard_05_mutations.js:244-254 | when `steps` is not an array the handler either returns without a change or throws, never moves a step |
| EditorOps.MoveStepFacts | components/web_ui/assets/wizard/wizard_05_mutations.js:244-254 | the moved step lands at `idx + delta`, the other steps keep their order, the list keeps its elements, and the scenario keeps its other properties |
| EditorOps.MoveStepBack | devices_remote.js:733-743 | moving a step back by the opposite offset undoes the move |
| EditorOps.WithStepFacts | components/web_ui/assets/wizard/wizard_04_helpers.js:245-269 | writing a step back makes it read back, and no other step or scenario property changes |
| EditorOps.UpdateStepFieldFacts | components/web_ui/assets/wizard/wizard_04_helpers.js:245-269 | editing a truthy step changes only that step; `type` stores the text, a plain field stores the normalised value, and a dotted field stores it at the end of the path with every sibling along the path kept |
| EditorOps.RequirementsOf | components/web_ui/assets/wizard/wizard_04_helpers.js:753-765 | `ensure` on the requirements path can pave it exactly when `data` and `wait_flags` are objects or missing |
| EditorOps.SetRequirementsFacts | components/web_ui/assets/wizard/wizard_04_helpers.js:753-754 | a requirements list stored where `data.wait_flags` exists reads back, and the step keeps its other properties |
| EditorOps.AddWaitRuleThrows | components/web_ui/assets/wizard/wizard_04_helpers.js:747-757 | as written, `addWaitRule` throws exactly when `requirements` is not an array, which includes the `{}` that `ensure` creates for a missing list |
| EditorOps.AddWaitRuleOnFreshStep | components/web_ui/assets/wizard/wizard_04_helpers.js:747-757 | on a fresh wait step the handler as written throws, while the intended handler adds the one new requirement |
| EditorOps.AddWaitRuleAgrees | devices_remote.js:571-581 | where `requirements` is already an array, the handler as written and the intended one agree |
| EditorOps.AddWaitRuleFixedFacts | components/web_ui/assets/wizard/wizard_04_helpers.js:747-757 | the intended handler always succeeds on a truthy step with a paved path, changes only that step, and appends exactly one new requirement to the old list (or to none) |
| EditorOps.RemoveWaitRuleFacts | components/web_ui/assets/wizard/wizard_04_helpers.js:759-770 | on an array of requirements, only that step changes, and its requirements lose exactly the element at the normalised index |
| EditorOps.UpdateWaitFieldFacts | components/web_ui/assets/wizard/wizard_04_helpers.js:271-284 | editing an existing requirement changes only that step and, inside it, only that requirement, which takes its edited form |
| EditorOps.CloneOfFacts | components/web_ui/assets/wizard/wizard_05_mutations.js:154-156 | the copy of a JSON device differs from it only in `id` and `display_name`, which take the `_copy` and ` copy` suffixed names |
| EditorOps.DeleteDeviceUndoesClone | components/web_ui/assets/wizard/wizard_05_mutations.js:150-177 | deleting the copy right after cloning gives the device list back |
| EditorOps.DeleteDeviceFacts | components/web_ui/assets/wizard/wizard_05_mutations.js:164-177 | the selected device is removed (none when the selection is past the end), and the new selection is inside the remaining list, or -1 exactly when the list became empty |
| EditorOps.RemoveScenarioFacts | components/web_ui/assets/wizard/wizard_05_mutations.js:207-217 | with a non-negative target, that scenario is spliced out, the device keeps its other properties, and the new selection is inside the remaining list, or -1 exactly when it became empty |
| WizardTemplates.GetPutAll | components/web_ui/assets/devices_wizard.js:1476-1479 | after storing several properties, each stored key reads its new value and every other key reads as before |
| WizardTemplates.MapAll | components/web_ui/assets/devices_wizard.js:1464-1586 | `forEach` with a repair completes exactly when every element's repair completes, and then gives each element's repaired form, in order |
| WizardTemplates.FixUidSlot | components/web_ui/assets/devices_wizard.js:1464-1470 | the slot repair throws exactly on `null` or `undefined`; on an object it makes `source_id` and `label` text and `values` an array, keeping an array that was there; a primitive is left alone |
| WizardTemplates.FixMqttRule | components/web_ui/assets/devices_wizard.js:1512-1518 | the rule repair throws exactly on `null` or `undefined`; on an object the four names become text and `payload_required` becomes the boolean of its old value |
| WizardTemplates.FixFlagRule | components/web_ui/assets/devices_wizard.js:1532-1537 | the rule repair throws exactly on `null` or `undefined`; a missing `required_state` becomes true and a present one becomes its boolean |
| WizardTemplates.FixConditionRule | components/web_ui/assets/devices_wizard.js:1554-1559 | the rule repair throws exactly on `null` or `undefined`; `flag` becomes text and only a missing `required_state` is set, to true |
| WizardTemplates.GetFillText | components/web_ui/assets/devices_wizard.js:1465-1492 | after the text repair of a set of keys, each key reads as its old value or the empty string, and other keys are kept |
| WizardTemplates.FixSequenceStep | components/web_ui/assets/devices_wizard.js:1586-1593 | the step repair throws exactly on `null` or `undefined`; on an object the five text settings become text and `payload_required` becomes the boolean of its old value |
| WizardTemplates.RepairResult | components/web_ui/assets/devices_wizard.js:1453-1603 | a repair that owns a list throws exactly when the settings are a primitive or the list holds `null`/`undefined`; otherwise the device keeps its other properties and template type, and the list becomes the repaired elements in order |
| WizardTemplates.FillStringsKeeps | components/web_ui/assets/devices_wizard.js:1471-1475 | settings whose listed keys are all strings are left unchanged by the string repair |
| WizardTemplates.FillTextKeeps | components/web_ui/assets/devices_wizard.js:1465-1492 | settings whose listed keys are all non-empty text are left unchanged by the text repair |
| WizardTemplates.GetFillStrings | components/web_ui/assets/devices_wizard.js:1471-1602 | after the string repair each listed key reads as its old value if that was a string and "" otherwise, and other keys are kept |
| WizardTemplates.UidFieldsIdempotent | components/web_ui/assets/devices_wizard.js:1471-1479 | repairing the uid settings' fields twice is the same as once |
| WizardTemplates.ConditionFieldsIdempotent | components/web_ui/assets/devices_wizard.js:1548-1553 | repairing the condition settings' fields twice is the same as once |
| WizardTemplates.FillStringsFacts | components/web_ui/assets/devices_wizard.js:1471-1602 | after the string repair every listed key holds a string and every other key is unchanged |
| WizardTemplates.SequenceFieldsIdempotent | components/web_ui/assets/devices_wizard.js:1594-1602 | repairing the sequence settings' fields twice is the same as once |
| WizardTemplates.MapAllKeeps | components/web_ui/assets/devices_wizard.js:1464-1586 | a `forEach` whose repair leaves every element alone leaves the list alone |
| WizardTemplates.FixUidSlotIdempotent | components/web_ui/assets/devices_wizard.js:1464-1470 | a repaired slot is left unchanged by a second repair |
| WizardTemplates.PutAllKeeps | components/web_ui/assets/devices_wizard.js:1476-1479 | storing values a device already holds changes nothing |
| WizardTemplates.PutAllTwice | components/web_ui/assets/devices_wizard.js:1476-1479 | storing the same properties twice is the same as once |
| WizardTemplates.FixMqttRuleIdempotent | components/web_ui/assets/devices_wizard.js:1512-1518 | a repaired `on_mqtt_event` rule is left unchanged by a second repair |
| WizardTemplates.FixFlagRuleIdempotent | components/web_ui/assets/devices_wizard.js:1532-1537 | a repaired `on_flag` rule is left unchanged by a second repair |
| WizardTemplates.PutAllAt | components/web_ui/assets/devices_wizard.js:1476-1479 | a stored property reads back as stored |
| WizardTemplates.FixConditionRuleIdempotent | components/web_ui/assets/devices_wizard.js:1554-1559 | a repaired condition rule is left unchanged by a second repair |
| WizardTemplates.FixSequenceStepIdempotent | components/web_ui/assets/devices_wizard.js:1586-1593 | a repaired sequence step is left unchanged by a second repair |
| WizardTemplates.RepairSettled | components/web_ui/assets/devices_wizard.js:1453-1603 | a successful repair stores settings whose list is the repaired list and whose fields are repaired |
| WizardTemplates.RepairIdempotent | components/web_ui/assets/devices_wizard.js:1453-1603 | when the element and field repairs settle, a second repair of a repaired device returns it unchanged |
| WizardTemplates.UidFieldsRepair | components/web_ui/assets/devices_wizard.js:1471-1479 | the uid field repair keeps the `slots` list, gives an object, and settles |
| WizardTemplates.ConditionFieldsRepair | components/web_ui/assets/devices_wizard.js:1548-1553 | the condition field repair keeps the `rules` list, gives an object, and settles |
| WizardTemplates.SequenceFieldsRepair | components/web_ui/assets/devices_wizard.js:1594-1602 | the sequence field repair keeps the `steps` list, gives an object, and settles |
| WizardTemplates.EnsureUidIdempotent | components/web_ui/assets/devices_wizard.js:1453-1480 | a second `ensureUidTemplate` changes nothing |
| WizardTemplates.EnsureMqttIdempotent | components/web_ui/assets/devices_wizard.js:1501-1519 | a second `ensureMqttTemplate` changes nothing |
| WizardTemplates.EnsureFlagIdempotent | components/web_ui/assets/devices_wizard.js:1521-1538 | a second `ensureFlagTemplate` changes nothing |
| WizardTemplates.EnsureConditionIdempotent | components/web_ui/assets/devices_wizard.js:1540-1560 | a second `ensureConditionTemplate` changes nothing |
| WizardTemplates.EnsureSequenceIdempotent | components/web_ui/assets/devices_wizard.js:1575-1603 | a second `ensureSequenceTemplate` changes nothing |
| WizardTemplates.ConditionFieldsMode | components/web_ui/assets/devices_wizard.js:1548 | the mode becomes "any" when it was the string "any", and "all" otherwise |
| WizardTemplates.RepairStores | components/web_ui/assets/devices_wizard.js:1460-1582 | settings written back into the device's template read back as written |
| WizardTemplates.EnsureConditionMode | components/web_ui/assets/devices_wizard.js:1540-1560 | after `ensureConditionTemplate` the mode is "any" exactly when it was the string "any", and "all" otherwise |
| WizardTemplates.WithSettingsFacts | components/web_ui/assets/devices_wizard.js:1486-1572 | writing settings back keeps the template's type, makes the settings read back, and changes no other property of the device |
| WizardTemplates.SignalKeysApart | components/web_ui/assets/devices_wizard.js:1490-1496 | the duration and loop settings are not among the text settings the same repair fills |
| WizardTemplates.SignalFixFields | components/web_ui/assets/devices_wizard.js:1489-1496 | the signal-hold repair makes the text settings text, each duration its old value or 0 when that was falsy, and the loop flag a boolean |
| WizardTemplates.SignalFixText | components/web_ui/assets/devices_wizard.js:1490-1492 | the signal-hold text settings read as their old values or the empty string |
| WizardTemplates.SignalFixNumbers | components/web_ui/assets/devices_wizard.js:1493-1496 | the three durations are their old values or 0 when those were falsy, and the loop flag is the boolean of its old value |
| WizardTemplates.SignalNumbersSettle | components/web_ui/assets/devices_wizard.js:1490-1496 | filling the text settings first does not change what the duration repair produces |
| WizardTemplates.FillTextOutside | components/web_ui/assets/devices_wizard.js:1490-1492 | the text repair leaves a key outside its list unchanged |
| WizardTemplates.SignalFixIdempotent | components/web_ui/assets/devices_wizard.js:1489-1496 | the signal-hold repair settles after one call |
| WizardTemplates.EnsureSignalStores | components/web_ui/assets/devices_wizard.js:1482-1497 | `ensureSignalTemplate` stores the repaired signal-hold settings in the template |
| WizardTemplates.EnsureSignalIdempotent | components/web_ui/assets/devices_wizard.js:1482-1497 | a second `ensureSignalTemplate` changes nothing |
| WizardTemplates.EnsureIntervalFields | components/web_ui/assets/devices_wizard.js:1562-1573 | a numeric period is kept and any other becomes 1000 ms; the scenario becomes text |
| WizardTemplates.IntervalFixSettles | components/web_ui/assets/devices_wizard.js:1566-1572 | repairing repaired interval settings changes nothing |
| WizardTemplates.EnsureIntervalIdempotent | components/web_ui/assets/devices_wizard.js:1562-1573 | a second `ensureIntervalTemplate` changes nothing |
| WizardTemplates.RepairKeepsSettled | components/web_ui/assets/devices_wizard.js:1453-1603 | a device whose settings are already repaired and whose list is empty is left unchanged |
| WizardTemplates.DefaultUidSettled | components/web_ui/assets/devices_wizard.js:1377-1391 | the default uid settings are already repaired |
| WizardTemplates.DefaultConditionSettled | components/web_ui/assets/devices_wizard.js:1421-1428 | the default condition settings are already repaired |
| WizardTemplates.DefaultSequenceSettled | components/web_ui/assets/devices_wizard.js:1437-1451 | the default sequence settings are already repaired |
| WizardTemplates.DefaultSignalSettled | components/web_ui/assets/devices_wizard.js:1393-1407 | the default signal-hold settings are already repaired |
| WizardTemplates.DefaultIntervalSettled | components/web_ui/assets/devices_wizard.js:1430-1435 | the default interval settings are already repaired |
| WizardTemplates.FreshInstalled | components/web_ui/assets/devices_wizard.js:1320-1357 | the template installed for a type has that type, holds that type's default settings, and those settings are truthy |
| WizardTemplates.FreshSettled | components/web_ui/assets/devices_wizard.js:1304-1375 | the template `setDeviceTemplate` installs is already repaired, so the repair that follows leaves it as installed |
| WizardTemplates.EnsureForIdempotent | components/web_ui/assets/devices_wizard.js:1358-1372 | every template repair settles after one call |
| WizardTemplates.RepairKeepsOthers | components/web_ui/assets/devices_wizard.js:1453-1603 | a successful repair keeps the template's type and every other property of the device |
| WizardTemplates.EnsureForKeeps | components/web_ui/assets/devices_wizard.js:1358-1372 | repairing a device that has the template keeps the template's type and every other property of the device |
| WizardTemplates.SetDeviceTemplateCases | components/web_ui/assets/devices_wizard.js:1304-1375 | a type outside the seven sets the template to `null`; the type the device already has keeps its template and only repairs it; any other type installs exactly that type's defaults; no other property of the device changes |
| WizardTemplates.SetDeviceTemplateSettles | components/web_ui/assets/devices_wizard.js:1304-1375 | choosing the same type a second time changes nothing |
| WizardSteps.EditRequirement | components/web_ui/assets/devices_wizard.js:1882-1885 | the loader's requirement callback throws exactly on `null` or `undefined`, and otherwise gives `{flag, required_state}` with the flag as text and `required_state` taken when defined, else `!!state` |
| WizardSteps.SaveRequirements | components/web_ui/assets/devices_wizard.js:1979-1985 | saving drops requirements and never adds any; each saved one is an object with a text `flag` and a boolean `state` |
| WizardSteps.SaveRequirementsLoop | components/web_ui/assets/devices_wizard.js:1979-1985 | the `forEach` loop that pushes one requirement at a time gives the saved requirement list |
| WizardSteps.GetDefault | components/web_ui/assets/devices_wizard.js:1855-1858 | `if (o[k] === undefined) o[k] = x` sets only a missing key on an object, keeps every other key and leaves a primitive alone |
| WizardSteps.NestTwice | components/web_ui/assets/devices_wizard.js:1851-1854 | storing a part under `data` twice is storing the second; the step keeps its other properties |
| WizardSteps.DefaultKeepsDefined | components/web_ui/assets/devices_wizard.js:1855-1858 | a default never changes a defined field |
| WizardSteps.MqttPartKeeps | components/web_ui/assets/devices_wizard.js:1853-1860 | loading a publish step never overwrites a nested field that is already defined |
| WizardSteps.AudioPartKeeps | components/web_ui/assets/devices_wizard.js:1861-1866 | loading an audio step never overwrites a nested field that is already defined |
| WizardSteps.FlagPartKeeps | components/web_ui/assets/devices_wizard.js:1867-1872 | loading a set-flag step never overwrites a nested field that is already defined |
| WizardSteps.LoopPartKeeps | components/web_ui/assets/devices_wizard.js:1888-1897 | loading a loop step never overwrites a nested field that is already defined |
| WizardSteps.EventPartKeeps | components/web_ui/assets/devices_wizard.js:1898-1904 | loading an event step never overwrites a nested field that is already defined |
| WizardSteps.WaitPartKeeps | components/web_ui/assets/devices_wizard.js:1873-1887 | loading a wait step never overwrites a defined nested field other than `requirements` |
| WizardSteps.MqttPartSettled | components/web_ui/assets/devices_wizard.js:1853-1860 | a second load of a publish part changes nothing, and the part is truthy exactly when it was |
| WizardSteps.MqttPartFills | components/web_ui/assets/devices_wizard.js:1855-1858 | the legacy flat fields of a publish step fill exactly the nested fields that are missing, with `qos` taken only when it is a number |
| WizardSteps.AudioPartSettled | components/web_ui/assets/devices_wizard.js:1861-1866 | a second load of an audio part changes nothing |
| WizardSteps.FlagPartSettled | components/web_ui/assets/devices_wizard.js:1867-1872 | a second load of a set-flag part changes nothing |
| WizardSteps.LoopPartSettled | components/web_ui/assets/devices_wizard.js:1888-1897 | a second load of a loop part changes nothing |
| WizardSteps.EventPartSettled | components/web_ui/assets/devices_wizard.js:1898-1904 | a second load of an event part changes nothing |
| WizardSteps.EditRequirementSettled | components/web_ui/assets/devices_wizard.js:1882-1885 | mapping a mapped requirement again gives the same requirement |
| WizardSteps.WaitPartReadsWait | components/web_ui/assets/devices_wizard.js:1873-1887 | the wait part reads nothing of the step except `wait` |
| WizardSteps.WaitPartShape | components/web_ui/assets/devices_wizard.js:1874-1885 | after loading, the wait part has a defined `mode` and `timeout_ms`, and `requirements` is the mapped list |
| WizardSteps.WaitPartSettled | components/web_ui/assets/devices_wizard.js:1873-1887 | a second load of a wait part changes nothing |
| WizardSteps.NestSettled | components/web_ui/assets/devices_wizard.js:1851-1854 | the second load finds the part the first stored, so storing its repair again changes nothing |
| WizardSteps.NormalizeStepIdempotent | components/web_ui/assets/devices_wizard.js:1849-1908 | `normalizeStepForEditing` fills only what is missing, so a second call changes nothing |
| WizardSteps.NormalizedPart | components/web_ui/assets/devices_wizard.js:1851-1854 | after loading, the step's nested part is the repaired part |
| WizardSteps.NormalizeStepKeepsNested | components/web_ui/assets/devices_wizard.js:1849-1908 | loading a step never overwrites a nested field that is already defined; only the wait requirements are rewritten |
| WizardSteps.NormalizeWaitRequirements | components/web_ui/assets/devices_wizard.js:1873-1887 | loading a wait step throws exactly when a requirement it maps is `null` or `undefined`; otherwise each requirement keeps its flag as text and takes `required_state` when defined, else `!!state` |
| WizardSteps.SavedFieldsApart | components/web_ui/assets/devices_wizard.js:1951-2009 | no step type's settings overwrite the saved `type` or `delay_ms` |
| WizardSteps.SerializeStepBase | components/web_ui/assets/devices_wizard.js:1945-1950 | every saved step is an object with a truthy `type` (its own, or "nop") and `delay_ms` parsed as an integer (0 when unparsable); saving throws only for a wait step whose requirements are truthy but not an array |
| WizardSteps.SerializeStepIs | components/web_ui/assets/devices_wizard.js:1945-2011 | a saved step is the `type`/`delay_ms` pair together with the settings of its type |
| WizardSteps.SerializeMqtt | components/web_ui/assets/devices_wizard.js:1952-1959 | a publish step saves exactly `type`, `delay_ms`, a text topic and payload, `qos` clamped to 0..2 and a boolean `retain` |
| WizardSteps.MqttFieldsFacts | components/web_ui/assets/devices_wizard.js:1953-1957 | the publish settings are exactly a text topic and payload, `qos` within 0..2, and a boolean `retain` |
| WizardSteps.SerializeWait | components/web_ui/assets/devices_wizard.js:1972-1988 | a wait step saves mode "any" exactly when its mode is the string "any" (else "all"), the timeout as an integer, and the requirements with the falsy ones dropped, each as `{flag, state}` |
| WizardSteps.SerializeStepThrows | components/web_ui/assets/devices_wizard.js:1972-1988 | saving a step throws exactly when it is a wait step whose requirements are truthy but not an array |
| WizardSteps.WaitFieldsFacts | components/web_ui/assets/devices_wizard.js:1973-1986 | the saved wait block holds the mode ("any" exactly when it was "any"), the integer timeout and the saved requirements |
| WizardSteps.SerializeBare | components/web_ui/assets/devices_wizard.js:2004-2008 | `audio_stop`, `delay`, `nop` and any type without settings save only `type` and `delay_ms` |
| WizardSteps.SaveRequirementsAllTruthy | components/web_ui/assets/devices_wizard.js:1979-1985 | when no requirement is falsy, every one is saved, in order |
| WizardSteps.RequirementRoundTrip | components/web_ui/assets/devices_wizard.js:1882-1984 | a requirement as the firmware writes it survives loading and saving unchanged |
| WizardSteps.LoadLegacyWait | components/web_ui/assets/devices_wizard.js:1873-1887 | loading a legacy wait step with no `data` stores the mode, the timeout and the mapped requirements under `data.wait_flags` |
| WizardSteps.NestedWaitPart | components/web_ui/assets/devices_wizard.js:1946-1973 | putting a wait part under `data` leaves the saved `type` and `delay_ms` alone and makes that part the one saving reads |
| WizardSteps.SaveWaitPart | components/web_ui/assets/devices_wizard.js:1972-1988 | a wait step whose part holds an array of requirements saves its base fields and the wait block |
| WizardSteps.SavedWaitBlock | components/web_ui/assets/devices_wizard.js:1974-1986 | the saved object's `wait` holds the mode, the integer timeout and the saved requirements, next to `type` and `delay_ms` |
| WizardSteps.SaveNestedWait | components/web_ui/assets/devices_wizard.js:1972-1988 | saving a wait step whose `data.wait_flags` is a given part succeeds and gives its `type`, its integer `delay_ms` and that part's wait block |
| WizardSteps.WaitFieldsRoundTrip | components/web_ui/assets/devices_wizard.js:1874-1985 | the loaded fields of a wait block as the firmware writes it save back to the same block |
| WizardSteps.WaitRoundTrip | components/web_ui/assets/devices_wizard.js:1849-2011 | loading and then saving a wait step as the firmware writes it gives back the same wait block, flags and states included |
| WizardConfig.ForEachInFacts | components/web_ui/assets/devices_wizard.js:1816-1846 | a `forEach` repair completes exactly when every element's repair does; the owner keeps its other properties and its array holds the repaired elements, in order |
| WizardConfig.ArrayFieldFacts | components/web_ui/assets/devices_wizard.js:1813-1845 | `if (!Array.isArray(o[k])) o[k] = []` leaves an array alone, puts `[]` in place of anything else, and changes no other property |
| WizardConfig.NormalizeScenarioShape | components/web_ui/assets/devices_wizard.js:1837-1847 | a loaded scenario has a boolean `button_enabled`, a string `button_label` (the old one when it was a string) and an array of loaded steps, in order |
| WizardConfig.EnsureSignalKeeps | components/web_ui/assets/devices_wizard.js:1832-1834 | the signal-hold repair of the loader changes nothing outside the template |
| WizardConfig.NamedDeviceFacts | components/web_ui/assets/devices_wizard.js:1822-1827 | an empty display name is filled from `name`, else `id`, an empty name mirrors a non-empty display name, and no other property changes |
| WizardConfig.NormalizeDeviceFacts | components/web_ui/assets/devices_wizard.js:1820-1835 | a loaded device has its names filled, its scenarios an array of loaded scenarios, only a `signal_hold` template repaired, and no other property changed |
| WizardConfig.NormalizeLoadedConfigFacts | components/web_ui/assets/devices_wizard.js:1811-1818 | a loaded configuration is an object whose `devices` is an array of the loaded devices, in order; anything but an object loads as `{devices: []}` |
| WizardConfig.ForEachInSettled | components/web_ui/assets/devices_wizard.js:1816-1846 | a `forEach` over elements that are already repaired changes nothing |
| WizardConfig.NormalizeScenarioIdempotent | components/web_ui/assets/devices_wizard.js:1837-1847 | loading a loaded scenario changes nothing |
| WizardConfig.NamedDeviceSettled | components/web_ui/assets/devices_wizard.js:1822-1827 | a device whose names are already filled keeps them |
| WizardConfig.NormalizeDeviceIdempotent | components/web_ui/assets/devices_wizard.js:1820-1835 | loading a loaded device changes nothing |
| WizardConfig.NormalizeLoadedConfigIdempotent | components/web_ui/assets/devices_wizard.js:1811-1818 | loading a loaded configuration changes nothing, so a reload shows what was shown before |
| WizardConfig.StripSlotFacts | components/web_ui/assets/devices_wizard.js:2018-2022 | a slot loses its `last_value` and nothing else |
| WizardConfig.StripTemplateRuntimeFieldsFacts | components/web_ui/assets/devices_wizard.js:2013-2024 | stripping a device removes the uid slots' `last_value` and changes nothing outside the uid slots |
| WizardConfig.ShallowCopyFacts | components/web_ui/assets/devices_wizard.js:1936 | `Object.assign({}, v)` is an object that reads like `v` on every key |
| WizardConfig.SerializeScenarioFacts | components/web_ui/assets/devices_wizard.js:1935-1943 | a nullish scenario throws; otherwise the steps become the saved steps (`[]` when they were not an array), saving throws exactly when saving a step does, and every other property is copied |
| WizardConfig.SavedNameOf | components/web_ui/assets/devices_wizard.js:1921 | the name a device is saved with depends only on its `display_name`, `name` and `id` |
| WizardConfig.SavedDeviceFacts | components/web_ui/assets/devices_wizard.js:1921-1927 | the saved device's display name and name are both the saved name, truthy `tabs` are gone, and no property outside the names, `tabs` and the template changes |
| WizardConfig.PrepareDeviceNoScenarios | components/web_ui/assets/devices_wizard.js:1916-1919 | a device whose scenarios are not an array only gets `scenarios: []` |
| WizardConfig.PrepareDeviceFacts | components/web_ui/assets/devices_wizard.js:1914-1928 | a saved device's display name and name are the safe text of `display_name`, `name`, `id` or "Device", its scenarios are the saved scenarios, truthy `tabs` are gone, and every other property apart from the uid slots' runtime values is kept |
| WizardConfig.SaveDevicesFacts | components/web_ui/assets/devices_wizard.js:1911-1931 | saving the devices succeeds exactly when every device saves; the result has no `tab_limit` and holds the saved devices, in order |
| WizardConfig.PrepareConfigOfNothing | components/web_ui/assets/devices_wizard.js:1910-1913 | a falsy model saves as `{devices: []}` |
| WizardConfig.PrepareConfigOfPrimitive | components/web_ui/assets/devices_wizard.js:1910-1914 | a truthy primitive model throws when its devices are walked |
| WizardConfig.PrepareConfigFacts | components/web_ui/assets/devices_wizard.js:1909-1933 | an object model saves as its JSON copy with every device saved, in order, and no `tab_limit`; saving throws exactly when saving a device does |
| WizardConfig.ForEachLoop | components/web_ui/assets/devices_wizard.js:1816-1846 | the element-by-element `forEach` loop, which stops at the first element whose repair throws, gives the same result as the specification |
| WizardEdits.SlotValues | components/web_ui/assets/devices_wizard.js:1100 | every value typed into a uid slot is kept as a non-empty string with no comma and no white space at either end |
| WizardEdits.TrimmedParts | components/web_ui/assets/devices_wizard.js:1100 | trimming the parts and dropping the empty ones leaves only non-empty strings with no comma and no white space at either end |
| WizardEdits.IntervalInput | components/web_ui/assets/devices_wizard.js:1193-1197 | the stored period is at least 1: 1000 for text that is not a number, otherwise the number raised to 1 |
| WizardEdits.TimeoutInput | components/web_ui/assets/devices_wizard.js:1222-1226 | the stored timeout is never negative: 0 for text that is not a number, otherwise the number raised to 0 |
| WizardEdits.SignalValue | components/web_ui/assets/devices_wizard.js:1121-1127 | the two periods are stored as integers (`parseInt` or 0), the loop flag as whether the text is "true", and any other setting as the text |
| WizardEdits.FieldKind | components/web_ui/assets/devices_wizard.js:1080-1236 | every form field other than `type` runs the repair of one of the seven template types first |
| WizardEdits.ListSettled | components/web_ui/assets/devices_wizard.js:1461-1585 | after the repair of a list-owning type, the template stays and its settings are an object holding an array under the list key |
| WizardEdits.EnsureForList | components/web_ui/assets/devices_wizard.js:1605-1744 | every add or remove handler starts from a device whose settings hold an array under the list key, with the template's type and the device's other properties kept |
| WizardEdits.WithSettingsKeeps | components/web_ui/assets/devices_wizard.js:1611-1749 | writing settings into an object template changes only them: the template's other entries, its type among them, and the device's other properties stay |
| WizardEdits.AppendItemFacts | components/web_ui/assets/devices_wizard.js:1638-1759 | at the limit the device is kept; below it exactly the new element is appended, the list then holds at most the limit, and nothing else changes |
| WizardEdits.AddListItemFacts | components/web_ui/assets/devices_wizard.js:1605-1759 | an add handler does nothing without a template of the type, throws exactly when the repair throws, and otherwise appends after the repair, keeping the template's type and the device's other properties |
| WizardEdits.RemoveItemFacts | components/web_ui/assets/devices_wizard.js:1623-1771 | a negative uid slot index keeps the device; otherwise exactly the element `splice` picks is removed, the one at the index when it is inside the list, and nothing else changes |
| WizardEdits.RemoveListItemFacts | components/web_ui/assets/devices_wizard.js:1616-1774 | a remove handler does nothing without a template of the type, throws exactly when the repair throws, and otherwise removes after the repair, keeping the template's type and the device's other properties |
| WizardEdits.EditSettingsFacts | components/web_ui/assets/devices_wizard.js:1103-1233 | a settings edit runs exactly when the settings are truthy; they then become the edited settings and nothing else changes |
| WizardEdits.EditListItemFacts | components/web_ui/assets/devices_wizard.js:1084-1216 | an element edit on an array runs exactly when the element at the index is truthy; that element is replaced by its edit and nothing else changes |
| WizardEdits.RepairKeepsDevice | components/web_ui/assets/devices_wizard.js:1453-1603 | every repair keeps the template's type and the device's other properties, whether or not the device has a template of the type |
| WizardEdits.EditKeepsDevice | components/web_ui/assets/devices_wizard.js:1084-1233 | a settings or element edit keeps the template's type and the device's other properties |
| WizardEdits.UpdateTemplateFieldKeeps | components/web_ui/assets/devices_wizard.js:1076-1239 | only the `type` field can change a template's type, and no field of the template form changes a device property outside its template |
| WizardEdits.FieldRuns | components/web_ui/assets/devices_wizard.js:1076-1239 | every field of the form edits the device its repair left |
| WizardEdits.IntervalSet | components/web_ui/assets/devices_wizard.js:1189-1202 | entering a period stores the clamped number and keeps the scenario |
| WizardEdits.IntervalReadBack | components/web_ui/assets/devices_wizard.js:1189-1202 | typing a period stores the clamped number (1000 for text that is not a number, never below 1) and keeps the scenario the repair left |
| WizardEdits.TimeoutSet | components/web_ui/assets/devices_wizard.js:1217-1226 | entering a sequence timeout stores the clamped number |
| WizardEdits.TimeoutReadBack | components/web_ui/assets/devices_wizard.js:1217-1226 | typing a sequence timeout stores the clamped number (0 for text that is not a number, never negative) |
| WizardEdits.ModeSet | components/web_ui/assets/devices_wizard.js:1158-1163 | the condition mode becomes "any" when "any" was chosen and "all" otherwise |
| WizardEdits.ConditionModeReadBack | components/web_ui/assets/devices_wizard.js:1158-1163 | after the repair, the condition mode reads back as "any" exactly when "any" was chosen, and as "all" otherwise |
| WizardEdits.SignalSet | components/web_ui/assets/devices_wizard.js:1117-1129 | a signal-hold input stores its value under its own key |
| WizardEdits.SignalReadBack | components/web_ui/assets/devices_wizard.js:1117-1129 | after the repair, a signal-hold input stores the periods as integers, the loop flag as a boolean and any other setting as text, under its own key |
| WizardEdits.ValuesSet | components/web_ui/assets/devices_wizard.js:1094-1101 | the values of slot `i` are replaced exactly when that slot is truthy, and then hold the trimmed, non-empty, comma-separated values |
| WizardEdits.UidValuesReadBack | components/web_ui/assets/devices_wizard.js:1094-1101 | typing the allowed values of a repaired uid slot stores exactly the trimmed, non-empty, comma-separated values; a missing slot changes nothing |
| WizardEdits.EditDeviceFieldFacts | components/web_ui/assets/devices_wizard.js:1055-1066 | the value is stored under the field; a display name is mirrored into `name`, a name fills an empty display name, and every other property stays |
| WizardEdits.EditScenarioFieldFacts | components/web_ui/assets/devices_wizard.js:1241-1261 | turning a scenario's button off clears its label and turning it on keeps it; any other field stores the text; no other property of the scenario changes |
| WizardEdits.SlotValuesRoundTrip | components/web_ui/assets/devices_wizard.js:1100 | the values the form shows joined by ", " read back, through split, trim and filter, as the same values; the form shows the joined values at line 501 |
| WizardEdits.PaddedRoundTrip | components/web_ui/assets/devices_wizard.js:1100 | the same read-back holds with or without a leading blank before the joined values |
| WizardEdits.PaddedNothing | components/web_ui/assets/devices_wizard.js:1100 | an empty value list reads back as empty |
| WizardEdits.PaddedLast | components/web_ui/assets/devices_wizard.js:1100 | a single clean value reads back as itself |
| WizardEdits.PaddedStep | components/web_ui/assets/devices_wizard.js:1100 | the first value of a joined list reads back first, followed by the read-back of the rest |
| DevicesEditor.AssignTemplateFacts | components/web_ui/assets/devices_editor.js:376-461 | a known type installs a template of exactly that type holding the editor's settings (and only the type and settings keys); any other type sets the template to null; no other device property changes |
| DevicesEditor.AssignTemplateForgets | components/web_ui/assets/devices_editor.js:376-461 | choosing a type discards the previous template entirely, even when the type is the same |
| DevicesEditor.EditorSettingsWithinDefaults | components/web_ui/assets/devices_editor.js:376-461 | every setting the editor installs has the same value the wizard's default template gives it |
| DevicesEditor.EditorSettingsOmit | components/web_ui/assets/devices_editor.js:376-461 | the editor's templates lack the uid activation fields and the signal tracks, loop flag, signal period and reset topic that the wizard's defaults carry |
| DevicesEditor.AppendFacts | components/web_ui/assets/devices_editor.js:773-785 | appending to a template list truncates it to the limit and adds one blank element at the end, leaving the rest of the device as it was |
| DevicesEditor.RemoveAtFacts | components/web_ui/assets/devices_editor.js:787-795 | the remove handler throws exactly when the list is not an array; otherwise it splices out the element at the normalised start with nothing else changed. There is no index guard, so a NaN index removes the first element and -1 the last (see `JsValue.SpliceOutNaNOrNegative`) |
| DevicesEditor.AppendThenRemove | components/web_ui/assets/devices_editor.js:773-795 | removing the element just appended gives back the device |
| DevicesEditor.AddSlotFacts | components/web_ui/assets/devices_editor.js:773-785 | without a uid template nothing changes; with one the slots are held to 8 and a blank slot is appended |
| DevicesEditor.RemoveSlotFacts | components/web_ui/assets/devices_editor.js:787-795 | without a uid template nothing changes; with one the chosen slot is spliced out |
| DevicesEditor.AddRuleFacts | components/web_ui/assets/devices_editor.js:835-884 | without the template nothing changes; nullish settings throw; otherwise a missing rule list starts empty, the rules are held to 8 and a blank rule is appended |
| DevicesEditor.RemoveRuleFacts | components/web_ui/assets/devices_editor.js:856-894 | without the template nothing changes; with it the chosen rule is spliced out |
| DevicesEditor.RulesPresent | components/web_ui/assets/devices_editor.js:840-842 | where the rules already form an array, defaulting them changes nothing |
| DevicesEditor.AddRuleThenRemove | components/web_ui/assets/devices_editor.js:835-864 | removing the rule just added gives back the device |
| DevicesEditor.AddSlotThenRemove | components/web_ui/assets/devices_editor.js:773-795 | removing the slot just added gives back the device |
| DevicesEditor.AddSequenceStepFacts | components/web_ui/assets/devices_editor.js:797-818 | nothing without a sequence template with truthy settings; settings that are truthy but not an object throw; otherwise a missing step list starts empty, the steps are held to 8 and a blank step is appended |
| DevicesEditor.RemoveSequenceStepIgnores | components/web_ui/assets/devices_editor.js:820-833 | a NaN, negative or out-of-range index leaves the steps as they were, apart from the step list being made an array |
| DevicesEditor.RemoveSequenceStepRemoves | components/web_ui/assets/devices_editor.js:820-833 | an index inside the list removes exactly that step; the other steps and settings stay |
| DevicesEditor.RemoveSequenceStepGuard | components/web_ui/assets/devices_editor.js:820-824 | nothing happens without a sequence template with truthy settings |
| DevicesEditor.EnsureEditorConditionSettles | components/web_ui/assets/devices_editor.js:571-594 | after the repair the device still has a condition template whose rules are an array; its other properties are unchanged; repairing again changes nothing |
| DevicesEditor.EnsureEditorConditionMode | components/web_ui/assets/devices_editor.js:571-585 | the repaired mode is the old mode when truthy and "all" otherwise (so any truthy mode survives, unlike in the wizard) |
| DevicesEditor.AddConditionRuleFacts | components/web_ui/assets/devices_editor.js:896-912 | without the template nothing changes; it throws exactly when the repair throws; otherwise the rules are held to 8 and a blank rule is appended |
| DevicesEditor.RemoveConditionRuleFacts | components/web_ui/assets/devices_editor.js:914-923 | without the template nothing changes; it throws exactly when the repair throws; otherwise the chosen rule is spliced out |
| DevicesEditor.EditorIntervalInput | components/web_ui/assets/devices_editor.js:232-235 | the stored interval is at least 1 and is the typed number or 1000 |
| DevicesEditor.EditorTimeoutInput | components/web_ui/assets/devices_editor.js:256-259 | the stored timeout is at least 0 and is the typed number or 0 |
| DevicesEditor.IntervalInputsCompared | components/web_ui/assets/devices_editor.js:232-235 | the editor stores the same interval as the wizard except for a typed number below 1, which becomes 1000 here and 1 in the wizard |
| DevicesEditor.TimeoutInputsAgree | components/web_ui/assets/devices_editor.js:256-259 | the editor and the wizard store the same timeout for every text |
| DevicesEditor.SetSettingFacts | components/web_ui/assets/devices_editor.js:228-262 | a setting is written only when the template is present with truthy settings; it reads back, and no other setting or device property changes |
| DevicesEditor.SetIntervalMsFacts | components/web_ui/assets/devices_editor.js:228-235 | an interval task's interval is stored as a number of at least 1, and its other settings are unchanged |
| DevicesEditor.SetTimeoutMsFacts | components/web_ui/assets/devices_editor.js:251-259 | a sequence lock's timeout is stored as a number of at least 0, and its other settings are unchanged |
| DevicesEditor.PrepareModelForSaveFacts | components/web_ui/assets/devices_editor.js:1030-1049 | the saved model is the clone with only its device list replaced, each device by its stripped form and in order; no saved uid slot keeps a last_value |
| DevicesEditor.StrippedHasNoLastValue | components/web_ui/assets/devices_editor.js:1038-1049 | after stripping, no object slot of the device's uid template has a `last_value` |
| DevicesEditor.Editor.constructor | components/web_ui/assets/devices_editor.js:285-287 | the loaded devices with the first one selected (none when empty) and nothing to save |
| DevicesEditor.Editor.SelectDevice | components/web_ui/assets/devices_editor.js:733-740 | an index inside the list becomes the selection; any other index is ignored |
| DevicesEditor.Editor.AddDevice | components/web_ui/assets/devices_editor.js:742-760 | at 12 devices nothing changes; otherwise the new device is appended, selected and the editor marked dirty; the list never grows past 12 |
| DevicesEditor.Editor.RemoveDevice | components/web_ui/assets/devices_editor.js:762-771 | without a selection nothing changes; otherwise the selected device is removed, the others keep their order and the selection is clamped to the new end |
| DevicesEditor.Editor.ChooseTemplate | components/web_ui/assets/devices_editor.js:166-167 | the selected device, when truthy, gets the chosen template and the editor is marked dirty; nothing else changes |
| DevicesEditor.Editor.Click | components/web_ui/assets/devices_editor.js:104-133 | the button's handler runs on the selected device and its result replaces that device; a handler that throws leaves the state unchanged; the editor is marked dirty when the handler changed something |
| EditorOps.SetTabLimitFacts | devices_remote.js:71-82 | a typed number is stored clamped to 1..12 (unchanged when already in range); an unparsable text or a missing model changes nothing; no other property changes |
| Laser.LaserGame.StartAudio | components/web_ui/web_ui_laser.c:191-207 | the hold track starts playing only when the game is enabled, the hold is not complete and a hold track is configured; nothing else changes |
| Laser.LaserGame.MaybeTriggerRelay | components/web_ui/web_ui_laser.c:275-284 | the relay fires exactly when it has not fired yet and the hold time is reached; firing completes the hold and stops the hold track |
| EditorOps.UpdateStepTypeFacts | devices_remote.js:530-540 | editing `type` stores the text as the step's type and leaves every other step property, every other step and the scenario's other properties unchanged |
| EditorOps.UpdateStepPlainFacts | devices_remote.js:550-553 | editing an undotted field stores the normalised value there and leaves every other step property, every other step and the scenario's other properties unchanged |
| EditorOps.UpdateStepPathFacts | devices_remote.js:541-550 | along a path of objects or missing parents, a dotted field stores the normalised value at the leaf and keeps every sibling along the way; only the edited step changes |

## Left out

- I/O and concurrency are not modelled: RTOS tasks and queues, locks, sockets, NVS and SD-card access, HTTP handlers, esp_timer, Wi-Fi, mDNS and SNTP, I2S output, audio decoding and seeking. Their results are parameters where an operation depends on them.
- Clocks are parameters: the `now` of the C handlers and the `Date.now()` stamps of the editors.
- JSON is an abstract tree, not text. Parsing and printing JSON text are not part of this model. Object keys are matched exactly, where cJSON's `cJSON_GetObjectItem` ignores case. The key order of exported objects is not modelled.
- `dm_limits.h` is not part of this model. The limits are taken as the browser editors state them: 12 devices, 12 tabs, 8 topics, 8 scenarios, 16 steps, 4 profiles and 8 flag rules.
- `device_manager_utils.h` is not part of this model, so the truncation done by `dm_str_copy` is not modelled. Strings are copied whole.
- Tabs are not modelled. The exporter writes `tabs` as an empty array.
- The web UI handlers of the laser, robot and pictures pages take their query parameters as the query string carries them. Reading the query string into its own buffer (320, 384 or 512 bytes) is not modelled. When the query does not fit that buffer, `httpd_req_get_url_query_str` does not return ESP_OK: the laser and robot handlers then read no parameter, and the pictures device handler answers 400.
- Allocation failures of the exporter are not modelled. The one export failure kept is a device with a sensor-monitor template, for which `template_to_json` has no case.
- The uid validator's `last_value` is exported but ignored when parsing. The uid `start` and `broadcast` fields are neither parsed nor exported by the firmware, so the round-trip lemmas exclude them.
- The exporter caps the device list while the parser does not. The round-trip lemmas hold for configurations within the cap.
- The sensor-monitor template and the runtime's sensor and interval files are not part of this model. The registry has no entry for the sensor-monitor kind and prints it as "unknown".
- Automation.FlagTable.ExecuteJob: runs at most `fuel` steps. `Automation.BoundedLoopsFinish` shows that enough fuel finishes any job whose loop steps all have a maximum and whose WAIT_FLAGS steps all have a timeout. A job with an unbounded loop is cut off by the fuel, and a WAIT_FLAGS step with timeout 0 whose requirements are unmet ends the run unfinished; the C code polls forever in both cases. Flags set by other tasks while a wait polls (another job's SET_FLAG) are not modelled, and a wait with a timeout is taken as passing once its time is up, because `execute_job` ignores the result.
- The split wizard sources (`wizard/wizard_04_helpers.js`, `wizard/wizard_05_mutations.js`) and the bundle `devices_wizard.js` disagree in places: uid start and broadcast fields, the reset topic, the signal repair in `normalizeDevice`, and the sequence step limit. Where they differ, the bundle is modelled.
- When a JavaScript handler throws part-way, the model leaves the state unchanged. The in-place writes made before the throw are not modelled.
- `Object.assign` applied to a non-object scenario, and a configuration whose top level is an array, are not modelled.
- DevicesEditor.Editor.SelectDevice: `selectDevice(NaN)` passes the source's range guard. The model takes only integer indices.
- The other text inputs of `devices_editor.js` are not modelled: profiles, DOM rendering and `fetch`.
- The remote editor's `addStep`, `removeStep`, tab and topic handlers are not modelled. Its `moveStep`, `removeScenario`, `addWaitRule`, `updateStepField`, `normalizeValue` and `tab_limit` handlers are; they share the wizard's members.
- JavaScript numbers are integers in the model. Fractions, `NaN` arithmetic and floating point are not modelled.

## Findings

| source | as written | input that shows it | evidently intended | confidence | as-written member | corrected member |
|---|---|---|---|---|---|---|
| components/device_manager/templates/dm_templates.c:216-217 | the signal-hold total adds each in-time gap in 32-bit arithmetic, which wraps | total 0xFFFFFFF0 plus an in-time gap of 0x20 gives 0x10 | the total saturates, so a hold that reached its time still completes | not executed | DmTemplates.AccumulatorWraps | DmTemplates.SaturationStillCompletes |
| components/mqtt_core/mqtt_core.c:288-297 | after a '+' the matcher does not step past the level separator before the next level | filter "a/+/c" against topic "a/b/c" | '+' matches exactly one level, so "a/+/c" matches "a/b/c" | not executed | MqttCore.PlusBeforeLevelAsWritten | MqttCore.PlusBeforeLevelCorrected |
| components/mqtt_core/mqtt_core.c:770-775 | the SUBSCRIBE reader reads the requested QoS byte without checking that it lies inside the packet | a topic filter that ends exactly at the end of the packet | the packet is rejected when the QoS byte is missing | not executed | MqttCore.QosReadPastEnd | MqttCore.GuardChangesOnlyOverrun |
| components/audio_player/audio_player.c:191 | progress computes bytes_read * 100 in 32 bits before dividing | 50,000,000 of 60,000,000 bytes read shows 11 % | 83 % | not executed | AudioPlayer.ProgressWrapsOnLargeFiles | AudioPlayer.Progress |
| components/web_ui/assets/wizard/wizard_04_helpers.js:747-757 | `addWaitRule` paves `data.wait_flags.requirements` with `{}` and then calls `.push` on it, which throws | a fresh wait step without requirements | the first rule is added to a new array | not executed | EditorOps.AddWaitRuleOnFreshStep | EditorOps.AddWaitRuleFixedFacts |
