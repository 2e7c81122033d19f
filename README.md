# travis-images core, modelled in Dafny

The travis-images tool builds the virtual-machine templates Travis CI runs
its builds on. `travis:images create` asks a cloud provider (Blue Box,
OpenStack or Sauce Labs) for a server. A `VmProvisioner` then opens an SSH
session to that server and runs a fixed, fail-fast pipeline of shell
batches:

- environment set-up, which is skipped for custom base images;
- installation of Chef;
- preparation of the travis-cookbooks tarball;
- a chef-solo run over the merged template configuration;
- clean-up.

On success, the server is saved as a template named
`travis-<desc>-<UTC timestamp>` and then destroyed. The tool can also:

- destroy servers by name (`destroy`);
- destroy left-over provisioning servers (`clean_up`);
- report or destroy duplicate worker servers (`duplicates`).

`travis:roles convert` turns legacy YAML role files into Chef roles, either
as Ruby source or as JSON.

The model has one Dafny module per core file, plus shared modules:

- `VmProvisioner` models the provisioner. It is a class whose SSH session is an oracle: `replies(n)` is the output and exit status of the n-th command sent.
- `OpenStack`, `BlueBox` and `SauceLabs` model the three drivers. Each has a `Connection` class that records the calls it makes on the provider, in order. The provider's catalog answers are oracles indexed by request number.
- `ImageCreation`, `CliServers`, `Duplicates` and `DupMatch` model the `travis:images` commands. `ImageCreation.Cli` records the provider calls in order. `DupMatch` is a hand-written matcher for the duplicate pattern.
- `RoleConversion` models `travis:roles convert`. `RoleConversion.Converter` records the files it creates and the formatter command it runs.
- The shared modules are:
  - `Values`: JSON/YAML values and ActiveSupport's `deep_merge`;
  - `Timestamps`: `strftime('%Y-%m-%d-%H-%M')` and its parse-back;
  - `Shell`: `Shellwords.escape`;
  - `Chef`: run-list items;
  - `GitHub`: `sha_for_repo` over an oracle for the API;
  - `Catalog`: filter, find and newest over a listing;
  - `Strings` and `Wrappers`.

Behaviour of the code as written, which the model follows:

- `deep_merge` replaces arrays and does not concatenate them (`Values.DeepMergeReplacesLists`). Only the two `recipes` lists are concatenated, by `parse_template_configs`.
- `create` calls `VmProvisoner.new` with four arguments. No such constant exists, so every provisioning attempt raises and is cleaned up (`ImageCreation.AsWrittenNeverSaves`). The correct call (`ImageCreation.Cli.Create`) takes the provisioning outcome as an input.
- `convert` records `"roles/#{@name}.rb"`, and `@name` is never set. Every target handed to rubocop is therefore `roles/.rb` (`RoleConversion.Converter.Convert`, `RoleConversion.TargetIsCreatedOnlyWhenNameEmpty`).

## Model

| member | source | states |
|---|---|---|
| VmProvisioner.PrepChefSubstitution | lib/travis/cloud_images/vm_provisioner.rb:38-47 | `x % {branch: b}` leaves every PREP_CHEF command unchanged except the tarball URL at index 4, where the branch (empty for nil) is substituted. |
| VmProvisioner.PrepChefPlain | lib/travis/cloud_images/vm_provisioner.rb:37-47 | No command of PREP_CHEF other than the tarball one contains `%`, so formatting cannot change it. |
| VmProvisioner.SkipSetup | lib/travis/cloud_images/vm_provisioner.rb:172-178 | An explicit `custom_base_name == false` never skips the set-up; otherwise the set-up is skipped exactly when the image type is not `standard` (nil included). |
| VmProvisioner.InjectConfigs | lib/travis/cloud_images/vm_provisioner.rb:154-161 | The `inject` loop over the parsed files computes the left fold of "deep-merge the json, concatenate the recipes" starting from `{}`. |
| VmProvisioner.FoldCommonStandard | lib/travis/cloud_images/vm_provisioner.rb:155-160 | For the common and standard files: json = deep_merge(common json or {}, standard json or {}); recipes = common recipes followed by standard recipes. |
| VmProvisioner.FoldNoFiles | lib/travis/cloud_images/vm_provisioner.rb:163-166 | Two missing template files give an empty json and an empty recipe list. |
| VmProvisioner.StoredJson | lib/travis/cloud_images/vm_provisioner.rb:124-125 | `merge!` of `system_info` adds exactly that key, holding the cookbooks SHA, and keeps every other key and value. |
| VmProvisioner.WithSystemInfoTwice | lib/travis/cloud_images/vm_provisioner.rb:125 | Stamping the same SHA twice equals stamping it once (helper for `VmProvisioner.Provisioner.UpdatedRunList`). |
| VmProvisioner.ChefDocumentKeys | lib/travis/cloud_images/vm_provisioner.rb:123-127 | The chef-solo document has the json's keys plus `system_info` and `run_list`. Its run list is `recipe[r]` for each recipe in order, and every other key keeps its value. |
| VmProvisioner.Strs | lib/travis/cloud_images/vm_provisioner.rb:169 | Each run-list item becomes a JSON string, in order. |
| VmProvisioner.RanFailFast | lib/travis/cloud_images/vm_provisioner.rb:102-108 | `all?` over the commands sends all of them when every status is 0. Otherwise it sends exactly up to and including the first command whose status is non-zero. |
| VmProvisioner.RanConcat | lib/travis/cloud_images/vm_provisioner.rb:102-108 | Running `a + b` fail-fast is running `a`, then `b` only if `a` succeeded; it succeeds iff both do. |
| VmProvisioner.SucceedsConcat | lib/travis/cloud_images/vm_provisioner.rb:102-108 | Success over `a + b` commands is success over the first `a` and the next `b`. |
| VmProvisioner.RanAll | lib/travis/cloud_images/vm_provisioner.rb:103-107 | When every status is 0, every command is sent. |
| VmProvisioner.RanStep | lib/travis/cloud_images/vm_provisioner.rb:103-107 | One more command examined by `all?`: it continues past command i exactly when command i exited with 0. |
| VmProvisioner.OutputTextConcat | lib/travis/cloud_images/vm_provisioner.rb:87 | The log of `a + b` commands is the log of the first `a` followed by the log of the next `b`. |
| VmProvisioner.SentOneMore | lib/travis/cloud_images/vm_provisioner.rb:86-100 | Sending one more command extends the history by it and the log by its output. |
| VmProvisioner.NextStage | lib/travis/cloud_images/vm_provisioner.rb:141-148 | The `&&` chain of batches is one fail-fast run over the concatenated pipeline. A stage that fails stops the pipeline at the same command that the whole run would stop at. |
| VmProvisioner.StageSucceeded | lib/travis/cloud_images/vm_provisioner.rb:143-147 | After a successful stage, the history and log are those of `done + stage`, which succeeded. |
| VmProvisioner.StageFailed | lib/travis/cloud_images/vm_provisioner.rb:143-147 | After a failing stage, the history and log are those of the whole pipeline stopped at its first failure. |
| VmProvisioner.PipelinePrefixes | lib/travis/cloud_images/vm_provisioner.rb:143-147 | Each stage prefix of the `&&` chain is a prefix of the whole pipeline (helper for `VmProvisioner.Provisioner.FullRun`). |
| VmProvisioner.Provisioner.constructor | lib/travis/cloud_images/vm_provisioner.rb:64-73 | Stores the arguments; the log starts empty, nothing has been sent, and `box_config` is not yet computed. |
| VmProvisioner.Provisioner.TemplateConfig | lib/travis/cloud_images/vm_provisioner.rb:163-166 | A template file that does not exist reads as `{}`. |
| VmProvisioner.Provisioner.SkippedSetupNeverRuns | lib/travis/cloud_images/vm_provisioner.rb:143 | When `skip_setup?` holds, the pipeline opens with INSTALL_CHEF and no set-up command is sent first. |
| VmProvisioner.Provisioner.ParseTemplateConfigs | lib/travis/cloud_images/vm_provisioner.rb:154-166 | The result deep-merges the common and standard json (missing as `{}`) and concatenates their recipes. |
| VmProvisioner.Provisioner.GetBoxConfig | lib/travis/cloud_images/vm_provisioner.rb:150-152 | Memoised: the first call parses and stores the configuration, and later calls return the stored one unchanged. |
| VmProvisioner.Provisioner.UpdatedRunList | lib/travis/cloud_images/vm_provisioner.rb:123-127 | Stamps the stored configuration with the cookbooks SHA in place. It returns that json with the run list added, without storing the run list. |
| VmProvisioner.Provisioner.Exec | lib/travis/cloud_images/vm_provisioner.rb:86-100 | Sends the command and returns its exit status. Every output chunk, stdout and stderr alike, is appended to the log in arrival order. |
| VmProvisioner.Provisioner.RunCommands | lib/travis/cloud_images/vm_provisioner.rb:102-108 | Returns true iff every command exits with 0. Exactly the commands up to the first failure are sent, and their output is logged. |
| VmProvisioner.Provisioner.RunStage | lib/travis/cloud_images/vm_provisioner.rb:110-116 | One batch of the pipeline keeps the run either in progress (success) or stopped at the pipeline's first failure. |
| VmProvisioner.RunChefWritesDocument | lib/travis/cloud_images/vm_provisioner.rb:129-135 | `run_chef` is three commands: the shell hands `echo` exactly the encoded document, written to `solo.json`, and chef-solo then runs with `solo.rb` on that file. |
| VmProvisioner.Provisioner.RunChef | lib/travis/cloud_images/vm_provisioner.rb:129-135 | Builds the chef-solo document (stamping the stored configuration) and runs the three chef commands as the next pipeline stage. |
| VmProvisioner.Provisioner.FullRun | lib/travis/cloud_images/vm_provisioner.rb:141-148 | True iff every command of the pipeline succeeds, all of which were then sent and logged. False means the pipeline stopped at its first failing command, with nothing after it sent. |
| Values.DeepMerge | lib/travis/cloud_images/vm_provisioner.rb:157 | The merge has the keys of both hashes, and nested hashes present on both sides are merged recursively. |
| Values.DeepMergeAt | lib/travis/cloud_images/vm_provisioner.rb:157 | Per key: a key only on the left keeps its value. A key on the right takes the right value unless both values are hashes, which are merged. |
| Values.DeepMergeEmpty | lib/travis/cloud_images/vm_provisioner.rb:157 | Merging with `{}` on either side changes nothing. |
| Values.DeepMergeIdempotent | lib/travis/cloud_images/vm_provisioner.rb:157 | Merging a hash with itself gives that hash. |
| Values.CoversReflexive | lib/travis/cloud_images/vm_provisioner.rb:157 | Every hash covers itself (helper for the override property). |
| Values.DeepMergeCoversRight | lib/travis/cloud_images/vm_provisioner.rb:157 | The later file wins: every leaf of the right-hand hash is found unchanged in the merge. |
| Values.DeepMergeReplacesLists | lib/travis/cloud_images/vm_provisioner.rb:157 | `{a: 1, list: [x]}` merged with `{a: 2, list: [y]}` gives `{a: 2, list: [y]}`: the scalar is overridden and the array replaced (an example of `Values.DeepMergeAt`). |
| Shell.EscapeRoundTrip | lib/travis/cloud_images/vm_provisioner.rb:132 | A POSIX shell reads `Shellwords.escape(s)` back as exactly `s`, so the JSON reaches `solo.json` intact. |
| Shell.ReadEscapeChar | lib/travis/cloud_images/vm_provisioner.rb:40 | Each escaped character is read back as itself. |
| Shell.ReadEscapeChars | lib/travis/cloud_images/vm_provisioner.rb:40 | The escaped characters of a string are read back as that string. |
| Shell.QuotedRun | lib/travis/cloud_images/vm_provisioner.rb:40 | Inside single quotes the shell reads up to, and not past, the first closing quote. |
| Shell.EscapeCharsAdds | lib/travis/cloud_images/vm_provisioner.rb:132 | Escaping introduces no character other than backslash, single quote and newline. |
| Shell.EscapeAdds | lib/travis/cloud_images/vm_provisioner.rb:132 | The same for the whole escape, including the empty string. |
| Chef.RunList | lib/travis/cloud_images/vm_provisioner.rb:168-170 | One `recipe[r]` item per recipe, in order. |
| Chef.RunListRoundTrip | lib/travis/cloud_images/vm_provisioner.rb:169 | Each recipe can be read back from its run-list item. |
| Chef.RunListInjective | lib/travis/cloud_images/vm_provisioner.rb:169 | Different recipe lists give different run lists. |
| GitHub.ShaForRepo | lib/travis/cloud_images/vm_provisioner.rb:180-191 | The first `length` characters of the branch head's SHA (all of it when shorter); when the request or parse fails, `'f' * length`. |
| GitHub.ShaForRepoLength | lib/travis/cloud_images/cli/image_creation.rb:236-247 | The result has exactly `length` characters iff the lookup failed or the answered SHA is at least that long. |
| Timestamps.FormatParse | lib/travis/cloud_images/open_stack.rb:87 | The `%Y-%m-%d-%H-%M` rendering of a UTC time parses back to that time. |
| Timestamps.FormatWellFormed | lib/travis/cloud_images/open_stack.rb:87 | The rendering is 16 characters: digits with dashes at the fixed positions. |
| Timestamps.Pad2Number | lib/travis/cloud_images/open_stack.rb:87 | A two-digit zero-padded field reads back as its number. |
| Timestamps.Pad4Number | lib/travis/cloud_images/open_stack.rb:87 | A four-digit year field reads back as its number. |
| Timestamps.TemplateNameParts | lib/travis/cloud_images/open_stack.rb:86-88 | `full_desc` is `travis-`, the description, a dash and the timestamp. |
| Timestamps.TemplateNameInjective | lib/travis/cloud_images/blue_box.rb:34-36 | Distinct descriptions or save times never give the same template name. |
| Catalog.Filter | lib/travis/cloud_images/open_stack.rb:109-111 | `find_all` keeps exactly the listed elements that satisfy the block. |
| Catalog.FilterAll | lib/travis/cloud_images/open_stack.rb:98 | Filtering by a condition every element meets keeps the whole list. |
| Catalog.FilterFilter | lib/travis/cloud_images/blue_box.rb:53-59 | Two successive `find_all`s are one `find_all` by the conjunction. |
| Catalog.Find | lib/travis/cloud_images/open_stack.rb:113-115 | `find` returns the first element satisfying the block, or nil when none does. |
| Catalog.Newest | lib/travis/cloud_images/open_stack.rb:98 | `sort` by creation time (descending) then `first`: a listed element whose key is at least every other's, or nil for an empty list. |
| Catalog.NewestStep | lib/travis/cloud_images/open_stack.rb:98 | A new head whose key is newer than the best so far is the newest overall. |
| Catalog.FilterSnoc | lib/travis/cloud_images/open_stack.rb:118 | One more element examined by `each ... if`: it is kept exactly when it satisfies the condition. |
| Catalog.FilterKeys | lib/travis/cloud_images/open_stack.rb:118 | With unique ids, an element's id is among those kept iff the element satisfies the condition. |
| Catalog.Map | lib/travis/cloud_images/open_stack.rb:118 | One result per element, the i-th being the block applied to the i-th element (the calls a `servers.each` loop makes, in order). |
| Catalog.MapConcat | lib/travis/cloud_images/blue_box.rb:66 | Mapping a concatenated list maps each part and concatenates the results. |
| Strings.LineStartsWithLonger | lib/travis/cloud_images/open_stack.rb:98 | A name matching `/^travis-#{type}/` matches `/^travis-/`. |
| Strings.SingleLineAnchor | lib/travis/cloud_images/open_stack.rb:110 | On a one-line string, Ruby's `^` anchor means "starts with". |
| Strings.PrefixLineStartsWith | lib/travis/cloud_images/open_stack.rb:110 | A string starting with the text matches `/^text/`. |
| Strings.Join | lib/travis/cloud_images/cli/image_creation.rb:70 | `join` of no parts is empty, and of one part is that part. |
| Strings.JoinLength | lib/travis/cloud_images/cli/role_conversion.rb:34 | The joined length is the sum of the parts plus one separator between each two. |
| Strings.Repeat | lib/travis/cloud_images/vm_provisioner.rb:190 | `'f' * n` is n copies of `f`. |
| Strings.Take | lib/travis/cloud_images/vm_provisioner.rb:188 | `s[0, n]` is the prefix of s of length min(n, \|s\|). |
| Strings.LessIrreflexive | lib/travis/cloud_images/open_stack.rb:98 | String `<=>` order: no string is before itself. |
| Strings.LessAsymmetric | lib/travis/cloud_images/open_stack.rb:98 | String `<=>` order is asymmetric. |
| Strings.LessTransitive | lib/travis/cloud_images/open_stack.rb:98 | String `<=>` order is transitive. |
| Strings.LessTotal | lib/travis/cloud_images/open_stack.rb:98 | Distinct strings are ordered one way or the other. |
| Strings.LessEqTotal | lib/travis/cloud_images/blue_box.rb:46 | Any two strings compare. |
| Strings.LessEqTransitive | lib/travis/cloud_images/blue_box.rb:46 | Non-strict order is transitive. |
| Strings.LessEqAntisymmetric | lib/travis/cloud_images/blue_box.rb:46 | Non-strict order is antisymmetric. |
| Strings.ReplaceAllAbsent | lib/travis/cloud_images/vm_provisioner.rb:120 | Formatting a command without the placeholder leaves it unchanged. |
| Strings.ReplaceAllSingle | lib/travis/cloud_images/vm_provisioner.rb:120 | Formatting a command with one `%{branch}` substitutes the branch there. |
| OpenStack.TravisTemplates | lib/travis/cloud_images/open_stack.rb:109-111 | Exactly the listed images whose name matches `/^travis-/`. |
| OpenStack.TypedIsTravis | lib/travis/cloud_images/open_stack.rb:98 | The outer `travis_templates` filter never drops a `/^travis-#{type}/` candidate. |
| OpenStack.Candidates | lib/travis/cloud_images/open_stack.rb:98 | Exactly the listed images with a line of the name starting with `travis-` and the type, the type read as literal text (`/^travis-#{type}/` for a type without metacharacters). |
| OpenStack.LatestTemplate | lib/travis/cloud_images/open_stack.rb:97-99 | None (`{}`) iff no image is a candidate for the type (literal text, as in `OpenStack.Candidates`); otherwise a listed candidate created no earlier than any other. |
| OpenStack.FindActiveTemplateFound | lib/travis/cloud_images/open_stack.rb:113-115 | The image found has exactly that name and is ACTIVE. There is one iff some listed image is. |
| OpenStack.FindActiveTemplateIsFind | lib/travis/cloud_images/open_stack.rb:113-115 | `find_active_template` is `find` with the name-and-ACTIVE test, so it returns the first such image in list order. |
| OpenStack.Flatten | lib/travis/cloud_images/open_stack.rb:21 | `values.flatten` holds exactly the addresses of every network list. |
| OpenStack.FlattenSnoc | lib/travis/cloud_images/open_stack.rb:21 | `flatten` keeps the order: the addresses of a last network list come after all the others. |
| OpenStack.IpAddress | lib/travis/cloud_images/open_stack.rb:20-22 | The `addr` of the first floating address in flattened order: every address before it is not floating. None (the Ruby error) iff the server has no floating address. |
| OpenStack.UserData | lib/travis/cloud_images/open_stack.rb:64-66 | The boot script opens with the `useradd` line and ends with the sudoers line. |
| OpenStack.UserDataPassword | lib/travis/cloud_images/open_stack.rb:64-66 | The password is read back from the boot script; no password means no `chpasswd` line. |
| OpenStack.UserDataPasswordLine | lib/travis/cloud_images/open_stack.rb:64-66 | Without a password the script is the `useradd` head and the sudoers line; a password adds exactly its `chpasswd` line between them. |
| OpenStack.CreateServer | lib/travis/cloud_images/open_stack.rb:63-75 | The request's name, flavor, key and network come from the options and config. Its image is `opts[:image_id] \|\| config.image_id`, and its user data is the boot script. |
| OpenStack.DestroyCalls | lib/travis/cloud_images/open_stack.rb:118 | One destroy call per server, in order. |
| OpenStack.DestroyCallsConcat | lib/travis/cloud_images/open_stack.rb:118 | Destroying `a + b` is destroying `a`, then `b`. |
| OpenStack.CleanUpExactlyActive | lib/travis/cloud_images/open_stack.rb:117-119 | `clean_up` destroys a server iff it is ACTIVE. |
| OpenStack.CleanUpStep | lib/travis/cloud_images/open_stack.rb:118 | Each server examined adds a destroy call exactly when it is ACTIVE. |
| OpenStack.Connection.constructor | lib/travis/cloud_images/open_stack.rb:44-46 | A fresh connection has made no request and no call. |
| OpenStack.Connection.Templates | lib/travis/cloud_images/open_stack.rb:105-107 | Each `templates` is one new catalog request. |
| OpenStack.Connection.SaveTemplate | lib/travis/cloud_images/open_stack.rb:86-95 | Asks once for an image named `travis-<desc>-<timestamp>`. It then polls until the first catalog that lists that image ACTIVE. |
| OpenStack.Connection.WaitActive | lib/travis/cloud_images/open_stack.rb:92-94 | The loop stops at the first catalog request whose answer lists the name as ACTIVE. |
| OpenStack.Connection.Destroy | lib/travis/cloud_images/open_stack.rb:32-35 | Disassociates the floating address, then destroys the server. Without a floating address, the lookup fails before any call is made. |
| OpenStack.Connection.CleanUp | lib/travis/cloud_images/open_stack.rb:117-119 | Destroys the ACTIVE servers in list order, and only those. |
| BlueBox.PrivateTemplates | lib/travis/cloud_images/blue_box.rb:53-55 | Exactly the templates whose `public` is an explicit false. |
| BlueBox.TravisTemplates | lib/travis/cloud_images/blue_box.rb:57-59 | Exactly the private templates whose description matches `/^travis-/`. |
| BlueBox.Candidates | lib/travis/cloud_images/blue_box.rb:46 | Exactly the private Travis templates whose description contains the type, read as literal text, anywhere (`/#{type}/` is unanchored). |
| BlueBox.LatestTemplate | lib/travis/cloud_images/blue_box.rb:45-47 | nil iff there is no candidate; otherwise a candidate created no earlier than any other. A public template is never chosen. |
| BlueBox.FindTemplateFound | lib/travis/cloud_images/blue_box.rb:61-63 | The template found is private and has exactly that description. There is one iff such a template is listed. |
| BlueBox.FindTemplateIsFind | lib/travis/cloud_images/blue_box.rb:61-63 | `find_template` is `find` with the private-and-description test, so it returns the first such template in list order. |
| BlueBox.FindTemplatePrivate | lib/travis/cloud_images/blue_box.rb:61-63 | `find_template` is `find` by description over `private_templates`. |
| BlueBox.CreateServer | lib/travis/cloud_images/blue_box.rb:20-29 | `defaults.merge(opts)`: the options win, and the defaults fill the other keys. The default `image_id` is dropped when a `template_id` is given. |
| BlueBox.DestroyCalls | lib/travis/cloud_images/blue_box.rb:66 | One destroy call per server, in order. |
| BlueBox.DestroyCallsConcat | lib/travis/cloud_images/blue_box.rb:66 | Destroying `a + b` is destroying `a`, then `b`. |
| BlueBox.CleanUpStep | lib/travis/cloud_images/blue_box.rb:66 | Each server examined adds a destroy call exactly when it is running or in error. |
| BlueBox.CleanUpExactlyDisposable | lib/travis/cloud_images/blue_box.rb:65-67 | `clean_up` destroys a server iff its state is `running` or `error`. |
| BlueBox.Connection.constructor | lib/travis/cloud_images/blue_box.rb:16-18 | A fresh connection has made no request and no call. |
| BlueBox.Connection.Templates | lib/travis/cloud_images/blue_box.rb:49-51 | Each `templates` is one new `get_templates` request. |
| BlueBox.Connection.SaveTemplate | lib/travis/cloud_images/blue_box.rb:34-43 | Asks once for a template described `travis-<desc>-<timestamp>`. It then polls until the first answer that lists it among the private templates. |
| BlueBox.Connection.WaitListed | lib/travis/cloud_images/blue_box.rb:40-42 | The loop stops at the first request whose answer lists the description. |
| BlueBox.Connection.CleanUp | lib/travis/cloud_images/blue_box.rb:65-67 | Destroys the running and failed servers in list order, and only those. |
| SauceLabs.Hostname | lib/travis/cloud_images/sauce_labs.rb:12-18 | The `extra_info` host name when present, else the FQDN. |
| SauceLabs.HostnameSource | lib/travis/cloud_images/sauce_labs.rb:12-18 | There is a host name iff one of the two fields gives one, and it comes from one of them. |
| SauceLabs.StartupInfo | lib/travis/cloud_images/sauce_labs.rb:53-55 | Holds `hostname` and `password` exactly when those options are given, with their values, and no other key. |
| SauceLabs.ImageName | lib/travis/cloud_images/sauce_labs.rb:56 | The option's image name, else `ichef-osx8-10.8-working`. |
| SauceLabs.LatestTemplate | lib/travis/cloud_images/sauce_labs.rb:72-74 | Whatever the type, `{ 'id' => 'ichef-osx8-10.8-working' }`. |
| SauceLabs.Templates | lib/travis/cloud_images/sauce_labs.rb:76-78 | A single template. |
| SauceLabs.LatestIsOnlyTemplate | lib/travis/cloud_images/sauce_labs.rb:72-78 | The latest template of any type is the only template. |
| SauceLabs.Connection.constructor | lib/travis/cloud_images/sauce_labs.rb:39-41 | A fresh connection has made no call. |
| SauceLabs.Connection.CreateServer | lib/travis/cloud_images/sauce_labs.rb:52-59 | Starts one instance with the image name and start-up info holding exactly the given `hostname` and `password` with their values, then opens outgoing traffic for the started instance and describes it. |
| SauceLabs.Connection.Destroy | lib/travis/cloud_images/sauce_labs.rb:28-30 | Kills exactly this machine's instance. |
| SauceLabs.Connection.SaveTemplate | lib/travis/cloud_images/sauce_labs.rb:65-70 | Saves the instance once, under `travis-<desc>-<timestamp>`; the answer of `save_image` is not returned. |
| CliServers.LiteralPattern | lib/travis/cloud_images/cli/image_creation.rb:233 | A name without `.` (the only metacharacter modelled) matches `/^#{name}/` iff some line of the host name starts with it. |
| CliServers.DotWildcard | lib/travis/cloud_images/cli/image_creation.rb:138 | The `.` of `provisioning.` is a wildcard: any character but a newline matches it. |
| CliServers.ServersWithName | lib/travis/cloud_images/cli/image_creation.rb:232-234 | Exactly the servers whose host name matches `/^#{name}/`, with `.` the only metacharacter; a server without a host name never matches. |
| CliServers.DestroyActions | lib/travis/cloud_images/cli/image_creation.rb:140-144 | One destroy per server. |
| CliServers.DestroyActionsAt | lib/travis/cloud_images/cli/image_creation.rb:140-144 | The i-th destroy is of the i-th server, in order. |
| CliServers.DestroyActionsConcat | lib/travis/cloud_images/cli/image_creation.rb:140-144 | Destroying `a + b` is destroying `a`, then `b`. |
| CliServers.DestroyedOnce | lib/travis/cloud_images/cli/image_creation.rb:140-144 | Among distinct servers, each listed one is destroyed exactly once and no other is. |
| DupMatch.RunMaximal | lib/travis/cloud_images/cli/image_creation.rb:22 | A greedy `\w+` or `\d+` takes the whole run of its class. |
| DupMatch.RunExact | lib/travis/cloud_images/cli/image_creation.rb:22 | A maximal run of length n is found as n. |
| DupMatch.RunAtLeast | lib/travis/cloud_images/cli/image_creation.rb:22 | A run of at least n class characters is found as at least n. |
| DupMatch.ParseParts | lib/travis/cloud_images/cli/image_creation.rb:22 | Parsing the dashed parts ends inside the name, past the start whenever there is a part. |
| DupMatch.ParsePartsSound | lib/travis/cloud_images/cli/image_creation.rb:22 | A successful parse spells parts of the right classes, each followed by a dash. |
| DupMatch.ParsePartsComplete | lib/travis/cloud_images/cli/image_creation.rb:22 | Wherever such parts are spelled, the parse finds them. |
| DupMatch.MatchAtSound | lib/travis/cloud_images/cli/image_creation.rb:22 | A match at i is `testing-worker-`, then group 1 (`\w+-\d+-\d+-\d+-\w+-\d+`), a dash, and group 2, the whole digit run that follows. |
| DupMatch.MatchAtComplete | lib/travis/cloud_images/cli/image_creation.rb:22 | Wherever the prefix, the six parts and digits stand, the pattern matches there with those parts as group 1. |
| DupMatch.MatchAtFound | lib/travis/cloud_images/cli/image_creation.rb:22 | The captures of a match are the parts' text and the digit run. |
| DupMatch.CapturesOf | lib/travis/cloud_images/cli/image_creation.rb:22 | The group 1 capture plus a dash is the dashed parts, and group 2 is all digits. |
| DupMatch.SearchLeftmost | lib/travis/cloud_images/cli/image_creation.rb:171 | The search answers the match at the first start that has one, and nil iff no start has one. |
| DupMatch.MatchLeftmost | lib/travis/cloud_images/cli/image_creation.rb:171 | `DUP_MATCH_REGEX.match(name)` is the leftmost match in the whole host name. |
| Duplicates.Key | lib/travis/cloud_images/cli/image_creation.rb:170-173 | The group key exists iff the host name exists and matches the pattern. |
| Duplicates.KeysOf | lib/travis/cloud_images/cli/image_creation.rb:170 | `group_by`'s keys number at most the servers. |
| Duplicates.KeysOfDistinct | lib/travis/cloud_images/cli/image_creation.rb:170 | The hash keys are distinct. |
| Duplicates.KeysOfMembers | lib/travis/cloud_images/cli/image_creation.rb:170 | A key is in the hash iff some server has it. |
| Duplicates.GroupOf | lib/travis/cloud_images/cli/image_creation.rb:170 | A group has no more servers than the list. |
| Duplicates.GroupOfMembers | lib/travis/cloud_images/cli/image_creation.rb:170-173 | A group holds exactly the listed servers with its key. |
| Duplicates.InsertSorted | lib/travis/cloud_images/cli/image_creation.rb:179-183 | Inserting into a sorted group keeps it sorted and adds exactly that server. |
| Duplicates.InsertFront | lib/travis/cloud_images/cli/image_creation.rb:179-183 | A server ranked no later than the head goes in front. |
| Duplicates.InsertBehind | lib/travis/cloud_images/cli/image_creation.rb:179-183 | A head ranked no later than the inserted server stays in front. |
| Duplicates.SortByCorrect | lib/travis/cloud_images/cli/image_creation.rb:179-183 | `sort!` by capture 2 gives a permutation of the group in rank order. |
| Duplicates.ActedOverGroupsIsActed | lib/travis/cloud_images/cli/image_creation.rb:178-197 | Reading the groups from the hash gives the same servers as reading them from the list. |
| Duplicates.ActedOverGroupsStep | lib/travis/cloud_images/cli/image_creation.rb:178-188 | One more hash entry adds its group without its last server. |
| Duplicates.SparesLatest | lib/travis/cloud_images/cli/image_creation.rb:176-188 | In a kept group, the spared server has the greatest capture 2. The servers acted upon are the group without it. |
| Duplicates.SortedLast | lib/travis/cloud_images/cli/image_creation.rb:188 | The last of the sorted group is of greatest rank, and `v[0...-1]` holds the others. |
| Duplicates.ActedOverMembers | lib/travis/cloud_images/cli/image_creation.rb:175-176 | Only matched servers whose key is shared by two or more servers are acted upon. |
| Duplicates.ActedMembers | lib/travis/cloud_images/cli/image_creation.rb:175-176 | The `delete(nil)`/`delete_if` pruning: unmatched servers and single servers are never acted upon. |
| Duplicates.GroupServers | lib/travis/cloud_images/cli/image_creation.rb:170-176 | The pruned hash, iterated, acts on the servers of `Acted`. |
| Duplicates.GroupBy | lib/travis/cloud_images/cli/image_creation.rb:170-173 | `group_by` builds keys in first-appearance order, and each group holds its servers in list order. |
| Duplicates.GroupByStep | lib/travis/cloud_images/cli/image_creation.rb:170-173 | One more server goes to its key's group, which is created if the key is new. |
| Duplicates.KeysStep | lib/travis/cloud_images/cli/image_creation.rb:170 | A new key is appended; a known one changes nothing. |
| Duplicates.GroupOfStep | lib/travis/cloud_images/cli/image_creation.rb:170 | One more server joins exactly its own group. |
| Duplicates.NewKeyEmptyGroup | lib/travis/cloud_images/cli/image_creation.rb:170 | A key not yet seen has an empty group. |
| ImageCreation.CustomBaseImage | lib/travis/cloud_images/cli/image_creation.rb:218-226 | Truthy `--base` means yes and explicit false means no. Without the option, every type but `standard` uses a custom base. |
| ImageCreation.CustomBaseSkipsSetup | lib/travis/cloud_images/cli/image_creation.rb:218-226 | Without `--base`, the tool's custom-base choice equals the provisioner's `skip_setup?`. |
| ImageCreation.BaseFalseStillSkipsSetup | lib/travis/cloud_images/cli/image_creation.rb:59 | `--base false` picks the stock image. The provisioner, which never receives `:custom_base_name`, still skips the set-up for a non-standard type. |
| ImageCreation.Compact | lib/travis/cloud_images/cli/image_creation.rb:70 | `compact` keeps exactly the non-nil values. |
| ImageCreation.CompactTwo | lib/travis/cloud_images/cli/image_creation.rb:70 | Two present values are kept, in order (helper for `ImageCreation.DescriptionShape`). |
| ImageCreation.JoinTwo | lib/travis/cloud_images/cli/image_creation.rb:70 | Joining two parts puts one separator between them (helper for `ImageCreation.DescriptionShape`). |
| ImageCreation.DescriptionShape | lib/travis/cloud_images/cli/image_creation.rb:70 | The description is `name-type-sha`, or `type-sha` without a name; no empty part is left. |
| ImageCreation.TemplateDescriptionSha | lib/travis/cloud_images/cli/image_creation.rb:70 | The saved description ends in the first seven characters of the cookbooks branch head, or in `fffffff` when the lookup fails, after the optional name and the type. |
| ImageCreation.DescriptionInjective | lib/travis/cloud_images/cli/image_creation.rb:70 | Different cookbook revisions give different descriptions. |
| ImageCreation.StripForbidden | lib/travis/cloud_images/cli/image_creation.rb:211 | `gsub(/[\&\+\/\=\\]/, '')` removes exactly those characters and keeps all the others. |
| ImageCreation.SanitizePassword | lib/travis/cloud_images/cli/image_creation.rb:211 | At most 20 characters, none of them forbidden, and a prefix of the filtered digest. |
| ImageCreation.StripClean | lib/travis/cloud_images/cli/image_creation.rb:211 | A clean string is left unchanged. |
| ImageCreation.SanitizeIdempotent | lib/travis/cloud_images/cli/image_creation.rb:211 | Filtering a password again changes nothing. |
| ImageCreation.SanitizeLength | lib/travis/cloud_images/cli/image_creation.rb:211 | The password is 20 characters iff the digest has 20 allowed ones. |
| ImageCreation.ProviderClass | lib/travis/cloud_images/cli/image_creation.rb:206-208 | `blue_box`, `sauce_labs` and `open_stack` name the three providers; any other name gives nil. |
| ImageCreation.SavesOnlyOnSuccess | lib/travis/cloud_images/cli/image_creation.rb:47-81 | A template is saved iff the server was created and provisioning returned true. The calls are then create, save under the description, and destroy. |
| ImageCreation.ExceptionsCleanUp | lib/travis/cloud_images/cli/image_creation.rb:61-67 | A failed server request destroys every `provisioning.` server (`clean_up(nil)`). A failed provisioning destroys exactly its server. |
| ImageCreation.FailureKeepsOnlyWhenAsked | lib/travis/cloud_images/cli/image_creation.rb:74-80 | A false result destroys the server unless `--keep`, in which case nothing more is called. |
| ImageCreation.ShownOptions | lib/travis/cloud_images/cli/image_creation.rb:37-43 | The options shown hold `provisioning.<type>`, the base image iff a custom base is used, and never the password. |
| ImageCreation.AsWrittenNeverSaves | lib/travis/cloud_images/cli/image_creation.rb:56 | As written, the undefined `VmProvisoner` raises, so `create` never saves a template and destroys the server it created. |
| ImageCreation.DestroyedIf | lib/travis/cloud_images/cli/image_creation.rb:189-195 | `duplicates --destroy` destroys the listed servers; without it, nothing is called. |
| ImageCreation.DestroyedIfConcat | lib/travis/cloud_images/cli/image_creation.rb:178-197 | Acting on two lists is acting on each in turn. |
| ImageCreation.Suggestions | lib/travis/cloud_images/cli/image_creation.rb:130 | The suggested host names are exactly those containing the name. |
| ImageCreation.Cli.constructor | lib/travis/cloud_images/cli/image_creation.rb:202-204 | The tool has made no provider call yet. |
| ImageCreation.Cli.CleanUp | lib/travis/cloud_images/cli/image_creation.rb:137-147 | Destroys each given server, or every `provisioning.` server when given nil, in order, and counts them. |
| ImageCreation.Cli.Destroy | lib/travis/cloud_images/cli/image_creation.rb:119-133 | Destroys every server matching `/^#{name}/`. When there is none, it suggests the host names containing the name and fails. |
| ImageCreation.Cli.Create | lib/travis/cloud_images/cli/image_creation.rb:32-83 | Requests the server with the shown options plus the password, then makes exactly the calls of `CreateSteps` for the provider's and provisioner's outcomes. |
| ImageCreation.Cli.Request | lib/travis/cloud_images/cli/image_creation.rb:37-45 | The options hash before and after the password is added. |
| ImageCreation.Cli.Provision | lib/travis/cloud_images/cli/image_creation.rb:47-81 | The rescue/result branches make exactly the calls of `AfterRequest`. |
| ImageCreation.Cli.Duplicates | lib/travis/cloud_images/cli/image_creation.rb:167-198 | Lists every server of each duplicate group but its last, destroying them with `--destroy`. |
| ImageCreation.Cli.ActOnGroups | lib/travis/cloud_images/cli/image_creation.rb:178-197 | The loop over the hash acts on exactly the servers of `ActedOverGroups`. |
| ImageCreation.Cli.ActOnGroup | lib/travis/cloud_images/cli/image_creation.rb:179-196 | A group's `v[0...-1]` after sorting by capture 2, destroyed with `--destroy`. |
| ImageCreation.Cli.DestroyEach | lib/travis/cloud_images/cli/image_creation.rb:188-191 | `server.destroy` for each server, in order. |
| RoleConversion.BaseName | lib/travis/cloud_images/cli/role_conversion.rb:16 | `File.basename`: the suffix after the last `/`, containing no `/`. |
| RoleConversion.LeadingDots | lib/travis/cloud_images/cli/role_conversion.rb:16 | The dots a file name starts with, which `extname` ignores. |
| RoleConversion.LastIndexOf | lib/travis/cloud_images/cli/role_conversion.rb:16 | The position of the last occurrence, or nil iff there is none. |
| RoleConversion.Stem | lib/travis/cloud_images/cli/role_conversion.rb:16 | `basename(f, extname(f))` is a prefix of the base name, and all of it when there is no dot. |
| RoleConversion.DotsToUnderscores | lib/travis/cloud_images/cli/role_conversion.rb:16 | `tr('.', '_')` replaces every dot, position for position. |
| RoleConversion.DeleteDashes | lib/travis/cloud_images/cli/role_conversion.rb:16 | `tr('-', '')` leaves no dash and changes nothing without one. |
| RoleConversion.DeleteDashesMultiset | lib/travis/cloud_images/cli/role_conversion.rb:16 | Exactly the dashes are removed. |
| RoleConversion.DeleteDashesConcat | lib/travis/cloud_images/cli/role_conversion.rb:16 | Dash removal works piece by piece. |
| RoleConversion.RoleNameClean | lib/travis/cloud_images/cli/role_conversion.rb:16 | The role name has no dot, dash or slash, and every other character of the stem is kept as often as it occurs. |
| RoleConversion.DotsMultiset | lib/travis/cloud_images/cli/role_conversion.rb:16 | `tr('.', '_')` keeps the count of every other character. |
| RoleConversion.RoleNameIdempotent | lib/travis/cloud_images/cli/role_conversion.rb:16 | A role name converts to itself. |
| RoleConversion.NoSlashBaseName | lib/travis/cloud_images/cli/role_conversion.rb:16 | A name without `/` is its own base name. |
| RoleConversion.LastIndexOfAfter | lib/travis/cloud_images/cli/role_conversion.rb:16 | The last dot is the one before the extension. |
| RoleConversion.NoDots | lib/travis/cloud_images/cli/role_conversion.rb:16 | Without dots, `tr('.', '_')` changes nothing. |
| RoleConversion.DotsConcat | lib/travis/cloud_images/cli/role_conversion.rb:16 | `tr('.', '_')` works piece by piece. |
| RoleConversion.RoleNameDropsExtension | lib/travis/cloud_images/cli/role_conversion.rb:16 | The extension is dropped, then dots become underscores and dashes vanish. |
| RoleConversion.RoleNameExample | lib/travis/cloud_images/cli/role_conversion.rb:16 | `a.b-c.yml` gives `a_bc`, as `worker.node-js.yml` gives `worker_nodejs`. |
| RoleConversion.DeleteDashesAround | lib/travis/cloud_images/cli/role_conversion.rb:16 | A single dash between dash-free parts is removed. |
| RoleConversion.RunListValue | lib/travis/cloud_images/cli/role_conversion.rb:57-59 | The JSON run list is `recipe[r]` for each recipe, in order. |
| RoleConversion.JsonRole | lib/travis/cloud_images/cli/role_conversion.rb:51-59 | The role document has exactly the six role keys. |
| RoleConversion.JsonRoleRoundTrip | lib/travis/cloud_images/cli/role_conversion.rb:51-59 | It has the name, the description `Auto-generated role for <name>`, `chef_type` role, `json_class` `Chef::Role`, and `default_attributes` as given (nil when absent). The recipes read back from its run list. |
| RoleConversion.EscapeChar | lib/travis/cloud_images/cli/role_conversion.rb:33 | `inspect` writes a character as itself exactly when it is not an ASCII control character or DEL, and not `"`, `\` or a `#` before `{`, `$` or `@`; otherwise as a backslash escape (`\n`, `\r`, `\t`, `\f`, `\v`, `\b`, `\a`, `\e`, or `\u00XX` for the other control characters and DEL). No escape holds a raw newline. |
| RoleConversion.HexDigit | lib/travis/cloud_images/cli/role_conversion.rb:33 | The digit of a `\u00XX` escape is an upper-case hexadecimal digit that reads back as its value. |
| RoleConversion.UnescapeChar | lib/travis/cloud_images/cli/role_conversion.rb:33 | Each escape `inspect` writes, whatever follows it, reads back as the one character it stands for. |
| RoleConversion.Escape | lib/travis/cloud_images/cli/role_conversion.rb:33 | An inspected string holds no raw newline. |
| RoleConversion.Inspect | lib/travis/cloud_images/cli/role_conversion.rb:33 | The same for the quoted literal. |
| RoleConversion.EscapeRoundTrip | lib/travis/cloud_images/cli/role_conversion.rb:33 | Ruby reads the `inspect` escaping back as the original string. |
| RoleConversion.QuotedRunList | lib/travis/cloud_images/cli/role_conversion.rb:32-34 | `"recipe[r]".inspect` for each recipe, in order. |
| RoleConversion.RubyRunListLines | lib/travis/cloud_images/cli/role_conversion.rb:32-34 | The joined run list spans one line per recipe. |
| RoleConversion.JoinNewlines | lib/travis/cloud_images/cli/role_conversion.rb:34 | `join ",\n"` of newline-free parts has one newline fewer than parts. |
| RoleConversion.PutsLine | lib/travis/cloud_images/cli/role_conversion.rb:37-44 | `puts` adds a newline unless the text already ends with one. |
| RoleConversion.PutsLineClosed | lib/travis/cloud_images/cli/role_conversion.rb:37-44 | A text not ending in a newline gets exactly one. |
| RoleConversion.RubyRoleShape | lib/travis/cloud_images/cli/role_conversion.rb:36-45 | The role file opens with the name and description lines. A `default_attributes(` block follows iff the attributes are non-empty, and without json the file is the header plus the run-list line. |
| RoleConversion.PrefixDiffers | lib/travis/cloud_images/cli/role_conversion.rb:39-44 | The attributes block and the run-list line are told apart by their first character. |
| RoleConversion.UnsetTargets | lib/travis/cloud_images/cli/role_conversion.rb:17-18 | One target per converted file. |
| RoleConversion.UnsetTargetsAll | lib/travis/cloud_images/cli/role_conversion.rb:17 | Every target is `roles/.rb`, because `@name` is never set. |
| RoleConversion.CreatedFiles | lib/travis/cloud_images/cli/role_conversion.rb:14-20 | One created file per input file. |
| RoleConversion.CreatedFilesAt | lib/travis/cloud_images/cli/role_conversion.rb:14-20 | The i-th created file is the role of the i-th input, under its derived name. |
| RoleConversion.CreatedFilesStep | lib/travis/cloud_images/cli/role_conversion.rb:14-20 | Each loop pass creates exactly one more file. |
| RoleConversion.TargetIsCreatedOnlyWhenNameEmpty | lib/travis/cloud_images/cli/role_conversion.rb:17-18 | The recorded target is the created file only for a Ruby role with an empty name. |
| RoleConversion.Converter.constructor | lib/travis/cloud_images/cli/role_conversion.rb:10-11 | A fresh conversion has created nothing and run nothing. |
| RoleConversion.Converter.Convert | lib/travis/cloud_images/cli/role_conversion.rb:12-25 | Creates one role per file, in order. In Ruby format, rubocop is then run over the recorded targets; in JSON format, nothing is run. |
| RoleConversion.Converter.ConvertEach | lib/travis/cloud_images/cli/role_conversion.rb:14-20 | The loop: targets and created files in file order. |
| RoleConversion.Converter.ConvertFile | lib/travis/cloud_images/cli/role_conversion.rb:15-19 | One file: load, derive the role name, and dispatch on the format. |
| RoleConversion.Converter.ConvertToRuby | lib/travis/cloud_images/cli/role_conversion.rb:29-47 | Creates `roles/<name>.rb` holding the role text built line by line. |
| RoleConversion.Converter.ConvertToJson | lib/travis/cloud_images/cli/role_conversion.rb:49-63 | Creates `roles/<name>.json` holding the role document. |

## Left out

- Network and remote I/O are replaced by oracles, namely the functions and sequences given to each class:
  - the Net::SSH session, including `shell`, `close_shell` and the session loop of `exec`;
  - Fog, the Blue Box and OpenStack connections, and the Sauce Labs API;
  - Faraday and the GitHub API;
  - YAML and file reading.

  The oracles' answers are taken as given.
- The `print`/`puts`/`printf`/`say` output of every command is not modelled, except the log `exec` keeps. This includes the tables of `list` and `duplicates` without `--destroy`, and the `blueboxgrid.com` host-name shortening.
- `PP.pp` and `MultiJson.encode` are opaque functions given to the model (`pp` and `encodeJson`).
- `JSON.pretty_generate` is not modelled: the JSON role file is recorded as the role Hash, so its key order (name, description, chef_type, json_class, default_attributes, run_list) and its text layout are not captured.
- Thor's `create_file` is recorded as the file path and contents. The rubocop run is recorded as its command string and is not executed.
- `generate_password`: `OpenSSL::Random`, SHA-1 and base64 are not modelled. Only the filter-and-cut step is (`ImageCreation.SanitizePassword`), and the password is an input to `create`.
- `Time.now` is an input (`UtcTime`). `sleep(3)` in the polling loops is left out.
- `OpenStack.Connection.SaveTemplate`, `OpenStack.Connection.WaitActive`, `BlueBox.Connection.SaveTemplate`, `BlueBox.Connection.WaitListed`: these require that the template eventually shows up. The source loops forever otherwise, and the model does not cover non-termination.
- `server.wait_for { ready? }` and `server.reload` are left out. So are OpenStack's `allocate_address` and `associate_address`, which run after the request that `OpenStack.CreateServer` models.
- The `list` and `boot` commands are not modelled: they only print or start a debug server.
- `latest_template_id` and `base_image` are not modelled; the base image id is an input to `create`. Only OpenStack defines `latest_template_id` (`latest_template(type).id`, which raises NoMethodError on the `{}` returned when nothing matches); Blue Box and Sauce Labs do not. `base_image(options[:base])` passes the boolean `--base` flag (true or nil) where a type name is expected, and that call site is left out too.
- OpenStack.Candidates: the type is interpolated unescaped into `/^travis-#{type}/`; the model reads it as literal text, so a type holding regex metacharacters (`.`, `*`, `|`, `(`, ...) matches differently in Ruby, and a type that makes an invalid pattern (RegexpError) is not modelled.
- OpenStack.LatestTemplate: the same literal reading of the type, through `OpenStack.Candidates`.
- BlueBox.Candidates: the type is interpolated unescaped into `/#{type}/`; the model reads it as literal text, so regex metacharacters in the type and RegexpError are not modelled.
- BlueBox.LatestTemplate: the same literal reading of the type, through `BlueBox.Candidates`.
- CliServers.LiteralPattern: only names without `.` are covered; the name is otherwise literal text, as in `CliServers.ServersWithName`.
- CliServers.ServersWithName: `.` (any character but a newline) is the only regex metacharacter modelled in `/^#{name}/`; other metacharacters (`*`, `|`, `(`, `[`, `\`, ...) are read as literal characters, and a name that makes an invalid pattern (RegexpError) is not modelled.
- RoleConversion.EscapeChar: non-ASCII characters are written as themselves; Ruby writes the ones Unicode classes as unprintable (in the string's encoding) as `\uXXXX`, which is not modelled.
- RoleConversion.Escape: the same limit for non-ASCII characters, through `RoleConversion.EscapeChar`.
- RoleConversion.Inspect: the same limit for non-ASCII characters, through `RoleConversion.EscapeChar`.
- The `servers` wrappers of the three drivers are not modelled, and neither are Sauce Labs `list_instances`/`instance_info` listing. The server list is an input.
- The provider `config` and `config.rb` are not part of this model; their values are inputs.
- Duplicates.SortBy: Ruby's `sort!` is not stable. The model sorts by insertion, and the contracts claim only rank order and permutation, which any correct sort meets.
- RoleConversion.Converter.Convert: `data['recipes']` of nil (which raises in Ruby) is not modelled; the recipes are always a list.
- A nil-valued option in `BlueBox.CreateServer` (`merge` of an explicit nil) is not modelled; an option is either present with a string or absent.
- The provisioner that `create` builds is modelled with VmProvisioner's seven-argument constructor. The call as written (`VmProvisoner.new` with four arguments, image_creation.rb:56) is `ImageCreation.ProvisionAsWritten`, which always raises.
- `ImageCreation.Cli.Destroy`: `exit 1` is reported as `destroyed == false` and is not a process exit. The suggestions are the host names printed with `p`.
