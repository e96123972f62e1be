// One running agent, as agentusage finds it.
module Processes {
  type Pid = int

  // A start instant of zero is one the platform does not report.
  datatype Process = Process(pid: Pid, started: int, tool: string, dir: string)
}
