/** The backend's records as the execution code reads them: an execution
    config and the task sources with their task definitions. A collection
    the code null-checks before use is modelled as possibly empty, because
    the code treats null and empty alike. */
module BenchConfig {
  import opened Wrappers

  /** One named parameter or criterion of a config with its `enabled` switch. */
  datatype ExecParam = ExecParam(name: string, enabled: bool)

  datatype ExecConfig = ExecConfig(
    filepath: string,
    difficulties: set<string>,
    areas: set<string>,
    languages: set<string>,
    parameters: seq<ExecParam>,
    criteria: seq<ExecParam>,
    llms: seq<string>)

  /** The language-specific part of a task. */
  datatype LangTask = LangTask(description: Option<string>, publicTests: seq<string>, hiddenTests: seq<string>)

  datatype TaskDescription = TaskDescription(commonPrompt: Option<string>, languagesSpecific: Option<map<string, LangTask>>)

  datatype TaskDefinition = TaskDefinition(
    name: string,
    difficulty: string,
    area: Option<string>,
    languages: seq<string>,
    availableParameters: seq<string>,
    availableCriteria: seq<string>,
    task: TaskDescription)

  datatype TaskSource = TaskSource(name: string, path: string, tasks: seq<TaskDefinition>)
}
